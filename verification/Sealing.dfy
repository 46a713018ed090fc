/**
 A key for facts that most proofs only pass on. `forall z :: Key(kind, k, z) ==> P` means P,
 for Key always holds; but the verifier takes P up only where some key of that kind and that k
 occurs, that is, where a proof says `assert Key(kind, k, 0)`. A predicate that is stated so
 can be required and ensured along a chain of lemmas at no cost, and is opened in the few that
 need what it says.

 In the same vein a contract says `P(x) == true` where P(x) is to be proved or handed on as one
 fact: Dafny would otherwise prove each conjunct of P's body by itself.
 */
module Sealing {
  datatype Kind = Bits | Cuts | Shape | Goes | Ends | Fills | FillsOne | Holds | Whole | Laid | Poise | Turning | Repeating
                | Hosting | Masking | Parting | Scanning

  predicate Key(kind: Kind, k: nat, z: int) { true }
}
