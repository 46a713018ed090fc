/**
 The launch list: the processes of the blocks of a command line are handed to the hosts of a
 pool, as many to each as it has cores, and round again; blocks without a pool of their own
 go on where the last of them has stopped in the global one (mp_parse_command_line.cpp).
 */
module LaunchList {
  import opened Modular

  const MSMPI_MAX_RANKS: nat := 32768

  /** mp_host_t; explicit_affinity holds the masks the user gave in reverse order. */
  datatype Host = Host(name: string, nproc: nat, affinity: seq<nat>)

  /** The j-th mask of a host as the user gave them. */
  function UserMask(host: Host, j: nat): nat
    requires j < |host.affinity|
  {
    host.affinity[|host.affinity| - 1 - j]
  }

  predicate HostsOk(hosts: seq<Host>) {
    hosts != [] && forall h :: 0 <= h < |hosts| ==> 0 < hosts[h].nproc
  }

  /** How many slots there are before a host: the list has each host as often as it has cores. */
  function Start(hosts: seq<Host>, h: nat): (n: nat)
    requires h <= |hosts|
  {
    if h == 0 then 0 else Start(hosts, h - 1) + hosts[h - 1].nproc
  }

  function Total(hosts: seq<Host>): nat {
    Start(hosts, |hosts|)
  }

  lemma {:induction false} StartMono(hosts: seq<Host>, h: nat, k: nat)
    requires h <= k <= |hosts|
    ensures Start(hosts, h) <= Start(hosts, k)
  {
    if h < k { StartMono(hosts, h, k - 1); }
  }

  /** mp_host_pool_t used as an iterator: the current host, and how many of its slots are used. */
  datatype Iter = Iter(host: nat, n: nat)

  /** The iterator when one more process has been placed. */
  function Advance(hosts: seq<Host>, it: Iter): Iter
    requires HostsOk(hosts) && it.host < |hosts|
  {
    var it1 := if it.n == hosts[it.host].nproc then Iter(it.host + 1, 0) else it;
    var it2 := if it1.host == |hosts| then Iter(0, 0) else it1;
    Iter(it2.host, it2.n + 1)
  }

  /** The iterator after t processes. */
  function Drawn(hosts: seq<Host>, t: nat): (it: Iter)
    requires HostsOk(hosts)
    ensures it.host < |hosts| && it.n <= hosts[it.host].nproc && (0 < t ==> 0 < it.n)
  {
    if t == 0 then Iter(0, 0) else Advance(hosts, Drawn(hosts, t - 1))
  }

  /** The host of the t-th process drawn from a pool. */
  function HostOf(hosts: seq<Host>, t: nat): (h: nat)
    requires HostsOk(hosts)
    ensures h < |hosts|
  {
    Drawn(hosts, t + 1).host
  }

  lemma TotalPositive(hosts: seq<Host>)
    requires HostsOk(hosts)
    ensures 0 < hosts[0].nproc <= Total(hosts)
  {
    StartMono(hosts, 1, |hosts|);
  }

  lemma {:induction false} DrawnAt(hosts: seq<Host>, t: nat)
    requires HostsOk(hosts) && 0 < Total(hosts) && 0 < t
    ensures Start(hosts, Drawn(hosts, t).host) + Drawn(hosts, t).n == Mod(t - 1, Total(hosts)) + 1
  {
    if t == 1 {
      assert Drawn(hosts, 0) == Iter(0, 0);
    } else {
      DrawnAt(hosts, t - 1);
      ModNext(t - 2, Total(hosts));
      var it := Drawn(hosts, t - 1);
      StartMono(hosts, it.host + 1, |hosts|);
      if it.host + 1 < |hosts| { StartMono(hosts, it.host + 2, |hosts|); }
    }
  }

  /** The list refined: the t-th process gets slot t mod total, which belongs to one host. */
  lemma SlotOf(hosts: seq<Host>, t: nat)
    requires HostsOk(hosts)
    ensures 0 < Total(hosts)
    ensures var h, slot := HostOf(hosts, t), Mod(t, Total(hosts));
            Start(hosts, h) <= slot < Start(hosts, h + 1)
  {
    TotalPositive(hosts);
    DrawnAt(hosts, t + 1);
  }

  /** ... and only to one. */
  lemma SlotIsUnique(hosts: seq<Host>, slot: nat, h: nat, k: nat)
    requires h < |hosts| && k < |hosts|
    requires Start(hosts, h) <= slot < Start(hosts, h + 1) && Start(hosts, k) <= slot < Start(hosts, k + 1)
    ensures h == k
  {
    if h < k { StartMono(hosts, h + 1, k); } else if k < h { StartMono(hosts, k + 1, h); }
  }

  // ---- what becomes of a process -----------------------------------------------------

  /** smpd_rank_data_t: where the rank runs, as what launch block, as which process of its host, with what mask. */
  datatype Rank = Rank(rank: nat, pool: nat, host: nat, name: string, app: nat, order: nat, mask: nat)

  const NO_MASK: nat := 0

  /** How many of the ranks run on the host of this name. */
  function OnHost(ranks: seq<Rank>, name: string): nat {
    if ranks == [] then 0
    else OnHost(ranks[..|ranks| - 1], name) + if ranks[|ranks| - 1].name == name then 1 else 0
  }

  /** How many of the ranks were drawn from this entry of this pool. */
  function OfEntry(ranks: seq<Rank>, pool: nat, host: nat): nat {
    if ranks == [] then 0
    else OfEntry(ranks[..|ranks| - 1], pool, host)
         + if ranks[|ranks| - 1].pool == pool && ranks[|ranks| - 1].host == host then 1 else 0
  }

  lemma OnHostMore(ranks: seq<Rank>, r: Rank, name: string)
    ensures OnHost(ranks + [r], name) == OnHost(ranks, name) + if r.name == name then 1 else 0
  {
    assert (ranks + [r])[..|ranks|] == ranks;
  }

  lemma OfEntryMore(ranks: seq<Rank>, r: Rank, pool: nat, host: nat)
    ensures OfEntry(ranks + [r], pool, host) == OfEntry(ranks, pool, host) + if r.pool == pool && r.host == host then 1 else 0
  {
    assert (ranks + [r])[..|ranks|] == ranks;
  }

  /** Rank r is numbered in order, and among the processes of its host by those before it. */
  predicate RankOk(ranks: seq<Rank>, r: nat)
    requires r < |ranks|
  {
    ranks[r].rank == r % 0x1_0000 && ranks[r].order == OnHost(ranks[..r], ranks[r].name)
  }

  predicate RanksOk(ranks: seq<Rank>) {
    forall r :: 0 <= r < |ranks| ==> RankOk(ranks, r)
  }

  lemma RanksMore(ranks: seq<Rank>, rank: Rank)
    requires RanksOk(ranks) && rank.rank == |ranks| % 0x1_0000 && rank.order == OnHost(ranks, rank.name)
    ensures RanksOk(ranks + [rank])
  {
    var more := ranks + [rank];
    forall r | 0 <= r < |more| ensures RankOk(more, r) {
      if r < |ranks| {
        assert RankOk(ranks, r) && more[..r] == ranks[..r];
      } else {
        assert more[..r] == ranks;
      }
    }
  }

  lemma {:induction false} OnHostMono(ranks: seq<Rank>, r: nat, name: string)
    requires r < |ranks| && ranks[r].name == name
    ensures OnHost(ranks[..r], name) < OnHost(ranks, name)
  {
    var n := |ranks| - 1;
    if r < n {
      OnHostMono(ranks[..n], r, name);
      assert ranks[..n][..r] == ranks[..r];
    }
  }

  /** nodeProcOrder numbers the processes of a host: every number below their count is given... */
  lemma {:induction false} OrderIsGiven(ranks: seq<Rank>, name: string, k: nat) returns (r: nat)
    requires RanksOk(ranks) && k < OnHost(ranks, name)
    ensures r < |ranks| && ranks[r].name == name && ranks[r].order == k
  {
    var n := |ranks| - 1;
    assert RankOk(ranks, n);
    if k < OnHost(ranks[..n], name) {
      forall r | 0 <= r < n ensures RankOk(ranks[..n], r) {
        assert RankOk(ranks, r) && ranks[..n][..r] == ranks[..r];
      }
      r := OrderIsGiven(ranks[..n], name, k);
    } else {
      r := n;
    }
  }

  /** ... and given once. */
  lemma OrderIsUnique(ranks: seq<Rank>, q: nat, r: nat)
    requires RanksOk(ranks) && q < r < |ranks| && ranks[q].name == ranks[r].name
    ensures ranks[q].order < ranks[r].order
  {
    assert RankOk(ranks, q) && RankOk(ranks, r);
    OnHostMono(ranks[..r], q, ranks[q].name);
    assert ranks[..r][..q] == ranks[..q];
  }

  // ---- pools -------------------------------------------------------------------------

  /** mp_host_pool_t */
  class HostPool {
    var hosts: seq<Host>
    var nproc: int

    ghost predicate Valid()
      reads this
    {
      HostsOk(hosts) && nproc == Total(hosts)
    }

    /** set_cores_per_host: the pool's count stays the sum of its hosts'. */
    method SetCoresPerHost(n: nat)
      requires Valid()
      modifies this`hosts, this`nproc
      ensures Valid() && |hosts| == |old(hosts)|
      ensures n == 0 ==> hosts == old(hosts)
      ensures n != 0 ==> forall h :: 0 <= h < |hosts| ==> hosts[h] == old(hosts)[h].(nproc := n)
    {
      if n == 0 {
        return;
      }
      ghost var before := hosts;
      var h := 0;
      while h < |hosts|
        invariant h <= |hosts| == |before| && HostsOk(hosts)
        invariant nproc == Total(hosts)
        invariant forall k :: 0 <= k < |hosts| ==> hosts[k] == if k < h then before[k].(nproc := n) else before[k]
      {
        nproc := nproc - (hosts[h].nproc - n);
        TotalChanges(hosts, h, n, |hosts|);
        hosts := hosts[h := hosts[h].(nproc := n)];
        h := h + 1;
      }
    }
  }

  lemma {:induction false} TotalChanges(hosts: seq<Host>, h: nat, n: nat, k: nat)
    requires h < |hosts| && k <= |hosts|
    ensures Start(hosts[h := hosts[h].(nproc := n)], k)
            == if h < k then Start(hosts, k) - hosts[h].nproc + n else Start(hosts, k)
  {
    if k > 0 { TotalChanges(hosts, h, n, k - 1); }
  }

  // ---- create_launch_list ------------------------------------------------------------

  /** explicit_index once j processes have had a mask of this host. */
  ghost predicate IndexIs(index: nat, host: Host, j: nat) {
    var count := |host.affinity|;
    0 < count && index == if Mod(j, count) == 0 then 0 else count - Mod(j, count)
  }

  /** The hosts of a pool as the launch list uses them: the explicit_index of each is all that changes. */
  class HostList {
    const id: nat
    const hosts: seq<Host>
    var explicitIndex: seq<nat>

    constructor (id: nat, hosts: seq<Host>)
      requires HostsOk(hosts)
      ensures this.id == id && this.hosts == hosts
      ensures (forall h :: 0 <= h < |hosts| ==> hosts[h].affinity != []) ==> IndexesOk(this, [])
    {
      this.id, this.hosts := id, hosts;
      explicitIndex := seq(|hosts|, _ => 0);
    }
  }

  ghost predicate IndexesOk(pool: HostList, ranks: seq<Rank>)
    reads pool
  {
    && |pool.explicitIndex| == |pool.hosts|
    && forall h :: 0 <= h < |pool.hosts| ==> IndexIs(pool.explicitIndex[h], pool.hosts[h], OfEntry(ranks, pool.id, h))
  }

  /** Rank r0 is the t0-th process drawn from the pool, and so on up to r; rank r has the next of the masks of its host. */
  ghost predicate PlacedAt(ranks: seq<Rank>, r: nat, id: nat, hosts: seq<Host>, app: nat, explicit: bool, r0: nat, t0: nat)
    requires r0 <= r < |ranks| && HostsOk(hosts)
  {
    var h := HostOf(hosts, t0 + (r - r0));
    && ranks[r].pool == id && ranks[r].host == h && ranks[r].name == hosts[h].name && ranks[r].app == app
    && (explicit ==> 0 < |hosts[h].affinity|
                     && ranks[r].mask == UserMask(hosts[h], Mod(OfEntry(ranks[..r], id, h), |hosts[h].affinity|)))
  }

  ghost predicate Placed(ranks: seq<Rank>, r0: nat, n: nat, id: nat, hosts: seq<Host>, app: nat, explicit: bool, t0: nat) {
    r0 + n <= |ranks| && HostsOk(hosts)
    && forall r :: r0 <= r < r0 + n ==> PlacedAt(ranks, r, id, hosts, app, explicit, r0, t0)
  }

  lemma PrefixOn<T>(a: seq<T>, b: seq<T>, c: seq<T>)
    requires a <= b && b <= c
    ensures a <= c
  {
  }

  lemma PlacedMore(ranks: seq<Rank>, more: seq<Rank>, r0: nat, n: nat, id: nat, hosts: seq<Host>, app: nat, explicit: bool, t0: nat)
    requires Placed(ranks, r0, n, id, hosts, app, explicit, t0) == true && |ranks| == r0 + n
    requires ranks <= more && |more| == r0 + n + 1 && PlacedAt(more, r0 + n, id, hosts, app, explicit, r0 + n, t0 + n)
    ensures Placed(more, r0, n + 1, id, hosts, app, explicit, t0) == true
  {
    forall r | r0 <= r < r0 + n + 1 ensures PlacedAt(more, r, id, hosts, app, explicit, r0, t0) {
      if r < r0 + n {
        assert PlacedAt(ranks, r, id, hosts, app, explicit, r0, t0) && more[..r] == ranks[..r];
      }
    }
  }

  /** Taking the next mask: the index goes back to the front when all have been used. */
  lemma NextMask(index: nat, host: Host, j: nat)
    requires IndexIs(index, host, j)
    ensures var i := if index == 0 then |host.affinity| else index;
            && 0 < i <= |host.affinity| && host.affinity[i - 1] == UserMask(host, Mod(j, |host.affinity|))
            && IndexIs(i - 1, host, j + 1)
  {
    ModNext(j, |host.affinity|);
  }

  /** mp_block_options_t; without a pool of its own a block uses the global one. */
  datatype Block = Block(app: nat, nproc: nat, pool: HostList?)

  ghost function Pools(blocks: seq<Block>): set<object> {
    set b | b in blocks && b.pool != null :: b.pool as object
  }

  function RanksBefore(blocks: seq<Block>, b: nat): nat
    requires b <= |blocks|
  {
    if b == 0 then 0 else RanksBefore(blocks, b - 1) + blocks[b - 1].nproc
  }

  /** How many processes the blocks before b have drawn from the global pool. */
  function GlobalBefore(blocks: seq<Block>, b: nat): nat
    requires b <= |blocks|
  {
    if b == 0 then 0 else GlobalBefore(blocks, b - 1) + if blocks[b - 1].pool == null then blocks[b - 1].nproc else 0
  }

  lemma {:induction false} RanksMono(blocks: seq<Block>, b: nat, c: nat)
    requires b <= c <= |blocks|
    ensures RanksBefore(blocks, b) <= RanksBefore(blocks, c)
  {
    if b < c { RanksMono(blocks, b, c - 1); }
  }

  ghost predicate Apart(p: HostList, q: HostList) {
    p != q && p.id != q.id
  }

  ghost predicate PoolAt(pool: HostList, blocks: seq<Block>, b: nat)
    requires b < |blocks|
  {
    blocks[b].pool != null ==>
      && HostsOk(blocks[b].pool.hosts) && Apart(blocks[b].pool, pool)
      && forall k :: 0 <= k < |blocks| && k != b && blocks[k].pool != null ==> Apart(blocks[b].pool, blocks[k].pool)
  }

  ghost predicate PoolsOk(pool: HostList, blocks: seq<Block>) {
    HostsOk(pool.hosts) && forall b :: 0 <= b < |blocks| ==> PoolAt(pool, blocks, b)
  }

  /** The processes of block b are the next ones drawn from its pool. */
  ghost predicate BlockPlaced(ranks: seq<Rank>, pool: HostList, blocks: seq<Block>, b: nat, explicit: bool)
    requires b < |blocks|
  {
    var bo, r0 := blocks[b], RanksBefore(blocks, b);
    if bo.pool == null then Placed(ranks, r0, bo.nproc, pool.id, pool.hosts, bo.app, explicit, GlobalBefore(blocks, b))
    else Placed(ranks, r0, bo.nproc, bo.pool.id, bo.pool.hosts, bo.app, explicit, 0)
  }

  lemma PlacedExtends(ranks: seq<Rank>, more: seq<Rank>, r0: nat, n: nat, id: nat, hosts: seq<Host>, app: nat, explicit: bool, t0: nat)
    requires Placed(ranks, r0, n, id, hosts, app, explicit, t0) && ranks <= more
    ensures Placed(more, r0, n, id, hosts, app, explicit, t0)
  {
    forall r | r0 <= r < r0 + n ensures PlacedAt(more, r, id, hosts, app, explicit, r0, t0) {
      assert PlacedAt(ranks, r, id, hosts, app, explicit, r0, t0) && more[..r] == ranks[..r];
    }
  }

  lemma BlockStays(ranks: seq<Rank>, more: seq<Rank>, pool: HostList, blocks: seq<Block>, b: nat, explicit: bool)
    requires b < |blocks| && BlockPlaced(ranks, pool, blocks, b, explicit) && ranks <= more
    ensures BlockPlaced(more, pool, blocks, b, explicit)
  {
    var bo, r0 := blocks[b], RanksBefore(blocks, b);
    if bo.pool == null {
      PlacedExtends(ranks, more, r0, bo.nproc, pool.id, pool.hosts, bo.app, explicit, GlobalBefore(blocks, b));
    } else {
      PlacedExtends(ranks, more, r0, bo.nproc, bo.pool.id, bo.pool.hosts, bo.app, explicit, 0);
    }
  }

  lemma {:induction false} OtherEntry(ranks: seq<Rank>, more: seq<Rank>, id: nat, h: nat)
    requires ranks <= more && forall r :: |ranks| <= r < |more| ==> more[r].pool != id
    ensures OfEntry(more, id, h) == OfEntry(ranks, id, h)
    decreases |more|
  {
    if |ranks| < |more| {
      OtherEntry(ranks, more[..|more| - 1], id, h);
    } else {
      assert more == ranks;
    }
  }

  lemma IndexesStay(ranks: seq<Rank>, more: seq<Rank>, n: nat, used: HostList, app: nat, explicit: bool, t0: nat, p: HostList)
    requires IndexesOk(p, ranks) && ranks <= more && |more| == |ranks| + n && p.id != used.id
    requires Placed(more, |ranks|, n, used.id, used.hosts, app, explicit, t0)
    ensures IndexesOk(p, more)
  {
    forall r | |ranks| <= r < |more| ensures more[r].pool != p.id {
      assert PlacedAt(more, r, used.id, used.hosts, app, explicit, |ranks|, t0);
    }
    forall h | 0 <= h < |p.hosts| ensures IndexIs(p.explicitIndex[h], p.hosts[h], OfEntry(more, p.id, h)) {
      OtherEntry(ranks, more, p.id, h);
    }
  }

  class LaunchList {
    var ranks: seq<Rank>
    var nodeProcCount: map<string, nat>

    predicate CountIs(name: string)
      reads this
    {
      OnHost(ranks, name) == if name in nodeProcCount then nodeProcCount[name] else 0
    }

    ghost predicate Valid()
      reads this
    {
      RanksOk(ranks) && forall name: string :: CountIs(name)
    }

    constructor ()
      ensures Valid() && ranks == []
    {
      ranks, nodeProcCount := [], map[];
    }

    /** nodeProcCount++ of a host. */
    method NextOrder(name: string) returns (order: nat)
      requires forall s: string :: CountIs(s)
      modifies this`nodeProcCount
      ensures order == OnHost(ranks, name)
      ensures nodeProcCount == old(nodeProcCount)[name := order + 1]
    {
      assert CountIs(name);
      order := if name in nodeProcCount then nodeProcCount[name] else 0;
      nodeProcCount := nodeProcCount[name := order + 1];
    }

    /** The explicit mask of the next process of a host. */
    method TakeMask(pool: HostList, h: nat) returns (mask: nat)
      requires IndexesOk(pool, ranks) && h < |pool.hosts|
      modifies pool`explicitIndex
      ensures mask == (assert IndexIs(old(pool.explicitIndex[h]), pool.hosts[h], OfEntry(ranks, pool.id, h));
                       UserMask(pool.hosts[h], Mod(OfEntry(ranks, pool.id, h), |pool.hosts[h].affinity|)))
      ensures |pool.explicitIndex| == |old(pool.explicitIndex)|
      ensures IndexIs(pool.explicitIndex[h], pool.hosts[h], OfEntry(ranks, pool.id, h) + 1)
      ensures forall k :: 0 <= k < |pool.explicitIndex| && k != h ==> pool.explicitIndex[k] == old(pool.explicitIndex)[k]
    {
      NextMask(pool.explicitIndex[h], pool.hosts[h], OfEntry(ranks, pool.id, h));
      var i := pool.explicitIndex[h];
      if i == 0 {
        i := |pool.hosts[h].affinity|;
      }
      mask := pool.hosts[h].affinity[i - 1];
      pool.explicitIndex := pool.explicitIndex[h := i - 1];
    }

    /** One process: the body of the loop of add_app_to_launch_list, behind the choice of the host. */
    method AddRank(pool: HostList, h: nat, app: nat, explicit: bool, ghost t: nat)
      requires Valid() && HostsOk(pool.hosts) && h == HostOf(pool.hosts, t) && (explicit ==> IndexesOk(pool, ranks))
      modifies this, pool`explicitIndex
      ensures Valid() && HostsOk(pool.hosts) && (explicit ==> IndexesOk(pool, ranks))
      ensures |ranks| == |old(ranks)| + 1 && ranks[..|old(ranks)|] == old(ranks)
      ensures PlacedAt(ranks, |old(ranks)|, pool.id, pool.hosts, app, explicit, |old(ranks)|, t)
    {
      ghost var before := ranks;
      var name := pool.hosts[h].name;
      var order := NextOrder(name);
      var mask := NO_MASK;
      if explicit {
        mask := TakeMask(pool, h);
      }
      var rank := Rank(|ranks| % 0x1_0000, pool.id, h, name, app, order, mask);
      RanksMore(ranks, rank);
      ranks := ranks + [rank];
      forall s: string ensures CountIs(s) {
        OnHostMore(before, rank, s);
        assert old(CountIs(s));
      }
      if explicit {
        forall k | 0 <= k < |pool.hosts| ensures IndexIs(pool.explicitIndex[k], pool.hosts[k], OfEntry(ranks, pool.id, k)) {
          OfEntryMore(before, rank, pool.id, k);
        }
      }
      assert ranks[..|before|] == before;
    }

    /** add_app_to_launch_list: the processes of a block go to the next slots of the pool. */
    method AddApp(pool: HostList, start: Iter, app: nat, nproc: nat, explicit: bool, ghost t0: nat) returns (it: Iter)
      requires Valid() && HostsOk(pool.hosts) && start == Drawn(pool.hosts, t0) && (explicit ==> IndexesOk(pool, ranks))
      modifies this, pool`explicitIndex
      ensures Valid() && HostsOk(pool.hosts) && (explicit ==> IndexesOk(pool, ranks))
      ensures it == Drawn(pool.hosts, t0 + nproc)
      ensures |ranks| == |old(ranks)| + nproc && ranks[..|old(ranks)|] == old(ranks)
      ensures Placed(ranks, |old(ranks)|, nproc, pool.id, pool.hosts, app, explicit, t0)
    {
      it := start;
      ghost var r0 := |ranks|;
      for i := 0 to nproc
        invariant Usable(pool, explicit) == true
        invariant it == Drawn(pool.hosts, t0 + i)
        invariant |ranks| == r0 + i && old(ranks) <= ranks
        invariant Placed(ranks, r0, i, pool.id, pool.hosts, app, explicit, t0) == true
      {
        ghost var before := ranks;
        it := AddNext(pool, it, app, explicit, t0 + i);
        PrefixOn(old(ranks), before, ranks);
        PlacedMore(before, ranks, r0, i, pool.id, pool.hosts, app, explicit, t0);
      }
    }

    ghost predicate Usable(pool: HostList, explicit: bool)
      reads this, pool
    {
      Valid() && HostsOk(pool.hosts) && (explicit ==> IndexesOk(pool, ranks))
    }

    /** The loop body of add_app_to_launch_list: on to the next slot, and one process for it. */
    method AddNext(pool: HostList, start: Iter, app: nat, explicit: bool, ghost t: nat) returns (it: Iter)
      requires Usable(pool, explicit) == true && start == Drawn(pool.hosts, t)
      modifies this, pool`explicitIndex
      ensures Usable(pool, explicit) == true && it == Drawn(pool.hosts, t + 1)
      ensures |ranks| == |old(ranks)| + 1 && old(ranks) <= ranks
      ensures PlacedAt(ranks, |old(ranks)|, pool.id, pool.hosts, app, explicit, |old(ranks)|, t)
    {
      var n: nat, host: nat := start.n, start.host;
      if n == pool.hosts[host].nproc {
        host, n := host + 1, 0;
      }
      if host == |pool.hosts| {
        host, n := 0, 0;
      }
      n := n + 1;
      it := Iter(host, n);
      assert it == Drawn(pool.hosts, t + 1);
      AddRank(pool, host, app, explicit, t);
    }

    /** The masks of the pools still to be used are in order. */
    ghost predicate Fresh(pool: HostList, blocks: seq<Block>, b: nat, explicit: bool)
      reads this, pool, Pools(blocks)
    {
      explicit ==>
        IndexesOk(pool, ranks) && forall k :: b <= k < |blocks| && blocks[k].pool != null ==> IndexesOk(blocks[k].pool, ranks)
    }

    /** One block of create_launch_list. */
    method AddBlock(pool: HostList, blocks: seq<Block>, b: nat, giter: Iter, explicit: bool) returns (it: Iter)
      requires Valid() && PoolsOk(pool, blocks) && b < |blocks| && Fresh(pool, blocks, b, explicit)
      requires giter == Drawn(pool.hosts, GlobalBefore(blocks, b)) && |ranks| == RanksBefore(blocks, b)
      modifies this, pool, Pools(blocks)
      ensures Valid() && Fresh(pool, blocks, b + 1, explicit)
      ensures it == Drawn(pool.hosts, GlobalBefore(blocks, b + 1)) && |ranks| == RanksBefore(blocks, b + 1)
      ensures old(ranks) <= ranks && BlockPlaced(ranks, pool, blocks, b, explicit)
    {
      ghost var before := ranks;
      var bo := blocks[b];
      assert PoolAt(pool, blocks, b);
      it := giter;
      if bo.pool == null {
        it := AddApp(pool, giter, bo.app, bo.nproc, explicit, GlobalBefore(blocks, b));
        if explicit {
          forall k | b < k < |blocks| && blocks[k].pool != null ensures IndexesOk(blocks[k].pool, ranks) {
            assert PoolAt(pool, blocks, k);
            IndexesStay(before, ranks, bo.nproc, pool, bo.app, explicit, GlobalBefore(blocks, b), blocks[k].pool);
          }
        }
      } else {
        var _ := AddApp(bo.pool, Iter(0, 0), bo.app, bo.nproc, explicit, 0);
        if explicit {
          IndexesStay(before, ranks, bo.nproc, bo.pool, bo.app, explicit, 0, pool);
          forall k | b < k < |blocks| && blocks[k].pool != null ensures IndexesOk(blocks[k].pool, ranks) {
            assert Apart(bo.pool, blocks[k].pool);
            IndexesStay(before, ranks, bo.nproc, bo.pool, bo.app, explicit, 0, blocks[k].pool);
          }
        }
      }
    }

    /**
     create_launch_list: blocks without a pool of their own share the global one and go on
     where the last of them has stopped. It fails when there are too many ranks.
     */
    method CreateLaunchList(pool: HostList, blocks: seq<Block>, explicit: bool) returns (ok: bool)
      requires Valid() && ranks == [] && PoolsOk(pool, blocks) && Fresh(pool, blocks, 0, explicit)
      modifies this, pool, Pools(blocks)
      ensures Valid() && (ok <==> RanksBefore(blocks, |blocks|) <= MSMPI_MAX_RANKS)
      ensures ok ==> |ranks| == RanksBefore(blocks, |blocks|)
      ensures ok ==> forall b :: 0 <= b < |blocks| ==> BlockPlaced(ranks, pool, blocks, b, explicit)
    {
      var giter := Iter(0, 0);
      var curRank := 0;
      for b := 0 to |blocks|
        invariant Valid() && Fresh(pool, blocks, b, explicit)
        invariant curRank == |ranks| == RanksBefore(blocks, b) <= MSMPI_MAX_RANKS
        invariant giter == Drawn(pool.hosts, GlobalBefore(blocks, b))
        invariant forall k :: 0 <= k < b ==> BlockPlaced(ranks, pool, blocks, k, explicit)
      {
        ghost var before := ranks;
        giter := AddBlock(pool, blocks, b, giter, explicit);
        forall k | 0 <= k < b ensures BlockPlaced(ranks, pool, blocks, k, explicit) {
          BlockStays(before, ranks, pool, blocks, k, explicit);
        }
        if curRank + blocks[b].nproc > MSMPI_MAX_RANKS {
          RanksMono(blocks, b + 1, |blocks|);
          return false;
        }
        curRank := curRank + blocks[b].nproc;
      }
      ok := true;
    }
  }

  /** As long as there are not too many, the rank is the place in the list: every rank appears exactly once. */
  lemma RanksCount(ranks: seq<Rank>, r: nat)
    requires RanksOk(ranks) && r < |ranks| <= MSMPI_MAX_RANKS
    ensures ranks[r].rank == r
  {
    assert RankOk(ranks, r);
  }
}
