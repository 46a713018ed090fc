/**
 The ring of the last 128 error messages (errutil.cpp): every error code carries the number of
 its creation, and names the code it was created from.
 */
module ErrorRing {
  const RING: nat := 128
  const INDEX: nat := 0x20_0000
  const OTHER: nat := 15
  const IN_STATUS: nat := 17
  const LAST_CLASS: nat := 53

  /** The slot of the n-th creation: the remainder by 128. */
  function SlotOf(n: nat): (i: nat)
    ensures i < RING
  {
    if n < RING then n else SlotOf(n - RING)
  }

  lemma {:induction false} SlotIsRemainder(n: nat)
    ensures SlotOf(n) == n % 128
  {
    if RING <= n {
      SlotIsRemainder(n - RING);
    }
  }

  lemma {:induction false} Apart(n: nat, k: nat)
    requires n < k < n + RING
    ensures SlotOf(n) != SlotOf(k)
  {
    if RING <= n {
      Apart(n - RING, k - RING);
    }
  }

  datatype Option<T> = None | Some(value: T)

  // ------------------------------------------------------------ codes

  // The masks of mpierror.h, as arithmetic on a two's-complement int.
  function Class(code: int): nat { code % 128 }
  predicate IsFatal(code: int) { code / 128 % 2 == 1 }
  predicate IsCode(code: int) { code / 256 % 2 == 1 }
  function Index(code: int): nat { code / 512 % 0x20_0000 }
  predicate IsDyn(code: int) { code / 0x4000_0000 % 2 == 1 }
  function RingIndex(code: int): nat { Index(code) % 128 }

  function Code(cls: nat, fatal: bool, index: nat): int {
    cls + 256 + 512 * index + if fatal then 128 else 0
  }

  /** The bits of a code tell all it was made of. */
  lemma CodeParts(cls: nat, fatal: bool, n: nat)
    requires cls < 128
    ensures var c := Code(cls, fatal, n % 0x20_0000);
            0 <= c < 0x4000_0000 && Class(c) == cls && IsFatal(c) == fatal && IsCode(c) && !IsDyn(c)
            && Index(c) == n % 0x20_0000 && RingIndex(c) == SlotOf(n)
  {
    LowBits(cls, fatal, n % 0x20_0000);
    HighBits(Code(cls, fatal, n % 0x20_0000), n % 0x20_0000);
    SlotIsRemainder(n);
    RemainderTwice(n);
  }

  lemma RemainderTwice(n: nat)
    ensures n % 0x20_0000 % 128 == n % 128
  {
  }

  lemma HighBits(c: int, index: nat)
    requires 0 <= c && c / 512 == index < INDEX
    ensures c < 0x4000_0000 && !IsDyn(c) && Index(c) == index
  {
    assert c / 0x4000_0000 == 0;
  }

  lemma LowBits(cls: nat, fatal: bool, index: nat)
    requires cls < 128 && index < INDEX
    ensures var c := Code(cls, fatal, index);
            Class(c) == cls && IsFatal(c) == fatal && IsCode(c) && c / 512 == index
  {
    var c := Code(cls, fatal, index);
    assert c / 128 == 4 * index + 2 + (if fatal then 1 else 0);
    assert c / 256 == 2 * index + 1;
  }

  // ------------------------------------------------------------ the history and the ring

  datatype Slot = Slot(id: int, prevError: int, useUser: bool, userCode: int)

  const Blank := Slot(0, 0, false, 0)

  /** One creation: its arguments, the code it gave, and which creation gave its lastcode (0: none, a class). */
  datatype Made = Made(code: int, lastcode: int, fatal: bool, cls: nat, user: Option<int>, before: nat)

  /** MPI_ERR_OTHER gives way to the class of the last code, when that has one. */
  function Passed(cls: nat, lastcode: int): nat {
    if cls == OTHER && Class(lastcode) != 0 then Class(lastcode) else cls
  }

  ghost predicate Link(made: seq<Made>, n: nat)
    requires 1 <= n <= |made|
  {
    var m := made[n - 1];
    && 0 < m.cls < 128
    && m.code == Code(Passed(m.cls, m.lastcode), m.fatal || IsFatal(m.lastcode), n % 0x20_0000)
    && (m.before == 0 ==> 0 <= m.lastcode <= LAST_CLASS)
    && (m.before != 0 ==> m.before < n <= m.before + RING && made[m.before - 1].code == m.lastcode)
  }

  /** Every code was created from a class, or from a code whose slot was still its own. */
  ghost predicate Chained(made: seq<Made>) {
    forall n :: 1 <= n <= |made| ==> Link(made, n)
  }

  /** The slot that a creation leaves: the user code stays when there is no newer one. */
  function Put(was: Slot, m: Made, last: Slot): Slot {
    Carry(was, m.lastcode, m.user, last).(prevError := m.lastcode, id := m.code)
  }

  function Carry(was: Slot, lastcode: int, user: Option<int>, last: Slot): Slot {
    if user.Some? then was.(useUser := true, userCode := user.value)
    else if IsCode(lastcode) && last.id == lastcode && last.useUser then
      was.(useUser := true, userCode := last.userCode)
    else was
  }

  /** The ring after the first t creations. */
  ghost function Slots(made: seq<Made>, t: nat): (s: seq<Slot>)
    requires t <= |made|
    ensures |s| == RING
  {
    if t == 0 then seq(RING, _ => Blank)
    else
      var s := Slots(made, t - 1);
      s[SlotOf(t) := Put(s[SlotOf(t)], made[t - 1], s[RingIndex(made[t - 1].lastcode)])]
  }

  lemma {:induction false} SlotsOfMore(made: seq<Made>, m: Made, t: nat)
    requires t <= |made|
    ensures Slots(made + [m], t) == Slots(made, t)
  {
    if t != 0 {
      SlotsOfMore(made, m, t - 1);
    }
  }

  lemma SlotsPushed(made: seq<Made>, m: Made)
    ensures var (s, i) := (Slots(made, |made|), SlotOf(|made| + 1));
            Slots(made + [m], |made| + 1) == s[i := Put(s[i], m, s[RingIndex(m.lastcode)])]
  {
    SlotsOfMore(made, m, |made|);
  }

  predicate Recent(t: nat, n: int) { 1 <= n <= t < n + 128 }

  /** The last 128 creations have their slots. */
  lemma {:induction false} Held(made: seq<Made>, t: nat, n: nat)
    requires t <= |made| && Recent(t, n)
    ensures Slots(made, t)[SlotOf(n)].id == made[n - 1].code
    ensures Slots(made, t)[SlotOf(n)].prevError == made[n - 1].lastcode
  {
    if n < t {
      Apart(n, t);
      Held(made, t - 1, n);
    }
  }

  /** A slot holds one of them, or nothing yet. */
  lemma {:induction false} Owner(made: seq<Made>, t: nat, i: nat) returns (n: nat)
    requires t <= |made| && i < RING
    ensures n == 0 ==> Slots(made, t)[i] == Blank
    ensures n != 0 ==> Recent(t, n) && SlotOf(n) == i
  {
    if t == 0 {
      n := 0;
    } else if SlotOf(t) == i {
      n := t;
    } else {
      n := Owner(made, t - 1, i);
    }
  }

  lemma CodeOf(made: seq<Made>, n: nat)
    requires Chained(made) && 1 <= n <= |made|
    ensures var c := made[n - 1].code;
            IsCode(c) && !IsDyn(c) && 0 <= c && Index(c) == n % 0x20_0000 && RingIndex(c) == SlotOf(n)
            && Class(c) == Passed(made[n - 1].cls, made[n - 1].lastcode)
            && IsFatal(c) == (made[n - 1].fatal || IsFatal(made[n - 1].lastcode))
  {
    var m := made[n - 1];
    assert Link(made, n);
    CodeParts(Passed(m.cls, m.lastcode), m.fatal || IsFatal(m.lastcode), n);
  }

  /** The code that a lookup takes for its own. */
  predicate Matches(s: seq<Slot>, code: int)
    requires |s| == RING
  {
    IsCode(code) && s[RingIndex(code)].id == code
  }

  /** Whatever code is looked up, a match is the code of one of the last 128 creations. */
  lemma MatchIsRecent(made: seq<Made>, code: int) returns (n: nat)
    requires Chained(made) && Matches(Slots(made, |made|), code)
    ensures Recent(|made|, n) && made[n - 1].code == code && SlotOf(n) == RingIndex(code)
  {
    n := Owner(made, |made|, RingIndex(code));
    Held(made, |made|, n);
  }

  /** Before 2^21 more creations, a code finds its own creation while that is one of the last 128, and nothing after. */
  lemma MatchIsTheCall(made: seq<Made>, n: nat)
    requires Chained(made) && 1 <= n <= |made| < n + INDEX
    ensures Matches(Slots(made, |made|), made[n - 1].code) <==> |made| < n + RING
  {
    CodeOf(made, n);
    if Matches(Slots(made, |made|), made[n - 1].code) {
      var k := MatchIsRecent(made, made[n - 1].code);
      CodeOf(made, k);
      assert k % 0x20_0000 == n % 0x20_0000;
      SameIndex(n, k);
    }
    if |made| < n + RING {
      Held(made, |made|, n);
    }
  }

  lemma SameIndex(n: nat, k: nat)
    requires n % 0x20_0000 == k % 0x20_0000 && n < k + INDEX && k < n + INDEX
    ensures n == k
  {
    assert n - k == 0x20_0000 * (n / 0x20_0000 - k / 0x20_0000);
  }

  /** However old, a code matches exactly when a recent creation has its number modulo 2^21, its class and its fatality. */
  lemma MatchExactly(made: seq<Made>, n: nat)
    requires Chained(made) && 1 <= n <= |made|
    ensures Matches(Slots(made, |made|), made[n - 1].code)
       <==> exists k :: Recent(|made|, k) && k % 0x20_0000 == n % 0x20_0000
                        && Class(made[k - 1].code) == Class(made[n - 1].code)
                        && IsFatal(made[k - 1].code) == IsFatal(made[n - 1].code)
  {
    CodeOf(made, n);
    if Matches(Slots(made, |made|), made[n - 1].code) {
      var k := MatchIsRecent(made, made[n - 1].code);
      CodeOf(made, k);
    }
    if k: nat :| (
        Recent(|made|, k) && k % 0x20_0000 == n % 0x20_0000
        && Class(made[k - 1].code) == Class(made[n - 1].code)
        && IsFatal(made[k - 1].code) == IsFatal(made[n - 1].code)) {
      CodeOf(made, k);
      assert Link(made, k) && Link(made, n);
      Held(made, |made|, k);
    }
  }

  /** With 2^21 creations after it, a code can find another's slot. */
  lemma StaleMatch() returns (made: seq<Made>)
    ensures Chained(made) && |made| == 1 + INDEX
    ensures Matches(Slots(made, |made|), made[0].code)
  {
    made := seq(1 + INDEX, k requires 0 <= k => Made(Code(OTHER, false, (k + 1) % 0x20_0000), 0, false, OTHER, None, 0));
    forall n | 1 <= n <= |made| ensures Link(made, n) {
      assert made[n - 1].code == Code(OTHER, false, n % 0x20_0000);
    }
    var k := 1 + INDEX;
    CodeOf(made, k);
    CodeOf(made, 1);
    assert Recent(|made|, k) && k % 0x20_0000 == 1 % 0x20_0000;
    MatchExactly(made, 1);
  }

  // ------------------------------------------------------------ the stack of a code

  /** The creations that lead to the n-th, newest first, as far as they are recent. */
  ghost function Trail(made: seq<Made>, n: nat): seq<nat>
    requires Chained(made) && n <= |made|
  {
    if !Recent(|made|, n) then []
    else
      assert Link(made, n);
      [n] + Trail(made, made[n - 1].before)
  }

  ghost function SlotsOf(trail: seq<nat>): (s: seq<nat>)
    ensures |s| == |trail|
    ensures forall i :: 0 <= i < |s| ==> s[i] == SlotOf(trail[i])
  {
    if trail == [] then [] else [SlotOf(trail[0])] + SlotsOf(trail[1..])
  }

  lemma Regroup(a: seq<nat>, i: nat, b: seq<nat>)
    ensures a + ([i] + b) == a + [i] + b
  {
  }

  /** What a stack is: strictly older creations, each the origin of the one before. */
  lemma {:induction false} TrailGoesBack(made: seq<Made>, n: nat, i: nat)
    requires Chained(made) && n <= |made| && i < |Trail(made, n)|
    ensures Trail(made, n)[0] == n && Recent(|made|, Trail(made, n)[i])
    ensures 0 < i ==> Trail(made, n)[i] < Trail(made, n)[i - 1] <= |made|
    ensures 0 < i ==> Trail(made, n)[i] == made[Trail(made, n)[i - 1] - 1].before
  {
    assert Link(made, n);
    if 0 < i {
      TrailGoesBack(made, made[n - 1].before, i - 1);
    }
  }

  lemma {:induction false} TrailLength(made: seq<Made>, n: nat)
    requires Chained(made) && n <= |made|
    ensures Recent(|made|, n) ==> |Trail(made, n)| + |made| <= n + RING
    ensures |Trail(made, n)| <= RING
  {
    if Recent(|made|, n) {
      assert Link(made, n);
      TrailLength(made, made[n - 1].before);
    }
  }

  /** The lookup of the origin's code finds the origin, or nothing. */
  lemma OriginMatch(made: seq<Made>, n: nat)
    requires Chained(made) && Recent(|made|, n)
    ensures var m := made[n - 1];
            Matches(Slots(made, |made|), m.lastcode) <==> m.before != 0 && Recent(|made|, m.before)
  {
    var m := made[n - 1];
    assert Link(made, n);
    if m.before != 0 {
      MatchIsTheCall(made, m.before);
      CodeOf(made, m.before);
    }
  }

  /** What the slot of a recent creation leads to is the rest of its trail. */
  lemma TrailStep(made: seq<Made>, n: nat) returns (before: nat)
    requires Chained(made) == true && Recent(|made|, n)
    ensures before < n && RingIndex(made[n - 1].code) == SlotOf(n)
    ensures SlotsOf(Trail(made, n)) == [SlotOf(n)] + SlotsOf(Trail(made, before))
    ensures var rest := Slots(made, |made|)[SlotOf(n)].prevError;
            && (Matches(Slots(made, |made|), rest) <==> before != 0 && Recent(|made|, before))
            && (before != 0 ==> made[before - 1].code == rest)
  {
    before := made[n - 1].before;
    CodeOf(made, n);
    Held(made, |made|, n);
    OriginMatch(made, n);
    assert Link(made, n);
  }

  // ------------------------------------------------------------ what is inherited

  /** Some creation on the way back was asked to be fatal. */
  ghost predicate AskedFatal(made: seq<Made>, n: nat)
    requires Chained(made) && 1 <= n <= |made|
    decreases n
  {
    assert Link(made, n);
    made[n - 1].fatal || (made[n - 1].before != 0 && AskedFatal(made, made[n - 1].before))
  }

  lemma {:induction false} FatalIsInherited(made: seq<Made>, n: nat)
    requires Chained(made) && 1 <= n <= |made|
    ensures IsFatal(made[n - 1].code) <==> AskedFatal(made, n)
    decreases n
  {
    CodeOf(made, n);
    assert Link(made, n);
    if made[n - 1].before != 0 {
      FatalIsInherited(made, made[n - 1].before);
    }
  }

  /** The newest class on the way back that is not MPI_ERR_OTHER, down to the class it began with. */
  ghost function Cause(made: seq<Made>, n: nat): nat
    requires Chained(made) && 1 <= n <= |made|
    decreases n
  {
    assert Link(made, n);
    var m := made[n - 1];
    if m.cls != OTHER then m.cls
    else if m.before != 0 then Cause(made, m.before)
    else if m.lastcode != 0 then m.lastcode
    else OTHER
  }

  lemma {:induction false} ClassIsTheCause(made: seq<Made>, n: nat)
    requires Chained(made) && 1 <= n <= |made|
    ensures Class(made[n - 1].code) == Cause(made, n) != 0
    decreases n
  {
    CodeOf(made, n);
    assert Link(made, n);
    if made[n - 1].before != 0 {
      ClassIsTheCause(made, made[n - 1].before);
    }
  }

  // ------------------------------------------------------------ user codes

  /** The creation, or one it goes back to, was given a user's code. */
  ghost predicate HasUser(made: seq<Made>, n: nat)
    requires Chained(made) && 1 <= n <= |made|
    decreases n
  {
    assert Link(made, n);
    var m := made[n - 1];
    m.user.Some? || (m.before != 0 && HasUser(made, m.before))
  }

  /** The newest user's code on the way back. */
  ghost function User(made: seq<Made>, n: nat): int
    requires Chained(made) && 1 <= n <= |made| && HasUser(made, n)
    decreases n
  {
    assert Link(made, n);
    var m := made[n - 1];
    if m.user.Some? then m.user.value else User(made, m.before)
  }

  /** The n-th creation leaves the mark of a user's code: also when its slot had one. */
  ghost predicate Marked(made: seq<Made>, n: nat)
    requires Chained(made) && 1 <= n <= |made|
    decreases n
  {
    assert Link(made, n);
    var m := made[n - 1];
    m.user.Some? || (m.before != 0 && Marked(made, m.before)) || (RING < n && Marked(made, n - RING))
  }

  lemma {:induction false} MarkHeld(made: seq<Made>, t: nat, n: nat)
    requires Chained(made) && t <= |made| && Recent(t, n)
    ensures Slots(made, t)[SlotOf(n)].useUser <==> Marked(made, n)
    decreases t
  {
    if n < t {
      SlotStays(made, t, n);
      MarkHeld(made, t - 1, n);
    } else {
      assert Link(made, n);
      if made[n - 1].before != 0 {
        MarkHeld(made, n - 1, made[n - 1].before);
      }
      if RING < n {
        MarkHeld(made, n - 1, n - RING);
      }
      MarkNow(made, n);
    }
  }

  lemma SlotStays(made: seq<Made>, t: nat, n: nat)
    requires Chained(made) && n < t <= |made| && Recent(t, n)
    ensures Recent(t - 1, n) && Slots(made, t)[SlotOf(n)] == Slots(made, t - 1)[SlotOf(n)]
  {
    Apart(n, t);
  }

  /** The slot just written bears a mark when the creation does, if the slots before it are right. */
  lemma MarkNow(made: seq<Made>, n: nat)
    requires Chained(made) && 1 <= n <= |made| && Link(made, n)
    requires made[n - 1].before != 0 ==>
      (Slots(made, n - 1)[SlotOf(made[n - 1].before)].useUser <==> Marked(made, made[n - 1].before))
    requires RING < n ==> (Slots(made, n - 1)[SlotOf(n - RING)].useUser <==> Marked(made, n - RING))
    ensures Slots(made, n)[SlotOf(n)].useUser <==> Marked(made, n)
  {
    var s := Slots(made, n - 1);
    var m := made[n - 1];
    MarkStep(made, n, s);
    var passed := m.before != 0 && s[SlotOf(m.before)].useUser;
    var kept := RING < n && s[SlotOf(n - RING)].useUser;
    MarkLast(made, n, Slots(made, n)[SlotOf(n)].useUser, passed, kept);
  }

  lemma MarkLast(made: seq<Made>, n: nat, now: bool, passed: bool, kept: bool)
    requires Chained(made) && 1 <= n <= |made| && (assert Link(made, n); now <==> made[n - 1].user.Some? || passed || kept)
    requires passed <==> made[n - 1].before != 0 && (assert Link(made, n); Marked(made, made[n - 1].before))
    requires kept <==> RING < n && Marked(made, n - RING)
    ensures now <==> Marked(made, n)
  {
  }

  lemma MarkStep(made: seq<Made>, n: nat, s: seq<Slot>)
    requires Chained(made) && 1 <= n <= |made| && s == Slots(made, n - 1)
    ensures Slots(made, n)[SlotOf(n)].useUser
       <==> made[n - 1].user.Some?
            || (made[n - 1].before != 0 && s[SlotOf(made[n - 1].before)].useUser)
            || (RING < n && s[SlotOf(n - RING)].useUser)
  {
    var last := LastSlot(made, n);
    MarkPut(made, n);
    PutMarks(s[SlotOf(n)], made[n - 1], last);
    if n <= RING {
      FirstTurn(made, n);
    } else {
      assert SlotOf(n - RING) == SlotOf(n);
    }
  }

  lemma PutMarks(was: Slot, m: Made, last: Slot)
    ensures Put(was, m, last).useUser
       <==> m.user.Some? || (IsCode(m.lastcode) && last.id == m.lastcode && last.useUser) || was.useUser
  {
  }

  lemma MarkPut(made: seq<Made>, n: nat)
    requires Chained(made) && 1 <= n <= |made|
    ensures var s := Slots(made, n - 1);
            Slots(made, n)[SlotOf(n)] == Put(s[SlotOf(n)], made[n - 1], s[RingIndex(made[n - 1].lastcode)])
  {
  }

  /** The slot that a creation reads of its origin is the origin's. */
  lemma LastSlot(made: seq<Made>, n: nat) returns (last: Slot)
    requires Chained(made) && 1 <= n <= |made|
    ensures last == Slots(made, n - 1)[RingIndex(made[n - 1].lastcode)]
    ensures made[n - 1].before == 0 ==> !IsCode(made[n - 1].lastcode)
    ensures made[n - 1].before != 0 ==>
      IsCode(made[n - 1].lastcode) && last.id == made[n - 1].lastcode && Recent(n - 1, made[n - 1].before)
      && last == Slots(made, n - 1)[SlotOf(made[n - 1].before)]
  {
    var m := made[n - 1];
    assert Link(made, n);
    last := Slots(made, n - 1)[RingIndex(m.lastcode)];
    if m.before != 0 {
      CodeOf(made, m.before);
      Held(made, n - 1, m.before);
    }
  }

  lemma FirstTurn(made: seq<Made>, n: nat)
    requires n <= |made| && 1 <= n <= RING
    ensures Slots(made, n - 1)[SlotOf(n)] == Blank
  {
    var k := Owner(made, n - 1, SlotOf(n));
    if k != 0 {
      Apart(k, n);
    }
  }

  /** A creation with a user's code behind it keeps that code, whatever its slot held before. */
  lemma {:induction false} UserHeld(made: seq<Made>, t: nat, n: nat)
    requires Chained(made) && t <= |made| && Recent(t, n) && HasUser(made, n)
    ensures Slots(made, t)[SlotOf(n)].useUser && Slots(made, t)[SlotOf(n)].userCode == User(made, n)
    decreases t
  {
    if n < t {
      Apart(n, t);
      UserHeld(made, t - 1, n);
    } else {
      MarkPut(made, n);
      var last := LastSlot(made, n);
      if made[n - 1].user.None? {
        UserHeld(made, n - 1, made[n - 1].before);
      }
    }
  }

  lemma {:induction false} NoUserNoMark(made: seq<Made>, n: nat)
    requires Chained(made) && 1 <= n <= |made|
    requires forall k :: 0 <= k < n ==> made[k].user.None?
    ensures !Marked(made, n)
    decreases n
  {
    assert Link(made, n);
    if made[n - 1].before != 0 {
      NoUserNoMark(made, made[n - 1].before);
    }
    if RING < n {
      NoUserNoMark(made, n - RING);
    }
  }

  /** With no user's code a ring's turn or more ago, the marks are right. */
  lemma {:induction false} MarkIsUser(made: seq<Made>, n: nat)
    requires Chained(made) && 1 <= n <= |made|
    requires forall k :: 0 <= k < n - RING ==> made[k].user.None?
    ensures Marked(made, n) <==> HasUser(made, n)
    decreases n
  {
    assert Link(made, n);
    if made[n - 1].before != 0 {
      MarkIsUser(made, made[n - 1].before);
    }
    if RING < n {
      NoUserNoMark(made, n - RING);
    }
  }

  /** The m-th creation is the n-th or one it goes back to. */
  ghost predicate GoesBackTo(made: seq<Made>, n: nat, m: nat)
    requires Chained(made) && 1 <= n <= |made|
    decreases n
  {
    assert Link(made, n);
    m == n || (made[n - 1].before != 0 && GoesBackTo(made, made[n - 1].before, m))
  }

  /** The m-th creation was put into a slot that bore a mark. */
  ghost predicate ReusedMark(made: seq<Made>, m: nat) {
    1 <= m <= |made| && Slots(made, m - 1)[SlotOf(m)].useUser
  }

  lemma ReusedIs(made: seq<Made>, m: nat)
    requires Chained(made) && 1 <= m <= |made|
    ensures ReusedMark(made, m) <==> RING < m && Marked(made, m - RING)
  {
    if m <= RING {
      FirstTurn(made, m);
    } else {
      MarkHeld(made, m - 1, m - RING);
    }
  }

  /**
   A mark is wrong, that is without a user's code behind it, exactly when there is no such code
   and the creation, or one it goes back to, was put into a slot that already bore a mark.
   */
  lemma {:induction false} MarkIsWrong(made: seq<Made>, n: nat)
    requires Chained(made) && 1 <= n <= |made|
    ensures Marked(made, n) && !HasUser(made, n)
       <==> !HasUser(made, n) && exists m: nat :: ReusedMark(made, m) && GoesBackTo(made, n, m)
    decreases n
  {
    assert Link(made, n);
    ReusedIs(made, n);
    assert GoesBackTo(made, n, n);
    var b := made[n - 1].before;
    if b != 0 {
      MarkIsWrong(made, b);
      forall m: nat | m != n ensures GoesBackTo(made, n, m) <==> GoesBackTo(made, b, m) {
      }
    }
  }

  /** A user's code marks its slot for good. */
  lemma {:induction false} MarksStay(made: seq<Made>, k: nat, n: nat)
    requires Chained(made) && 1 <= k <= n <= |made| && SlotOf(k) == SlotOf(n)
    requires made[k - 1].user.Some?
    ensures Marked(made, n)
    decreases n
  {
    if k < n {
      if n < k + RING {
        Apart(k, n);
      } else {
        MarksStay(made, k, n - RING);
      }
    }
  }

  /** Such a mark can be a leftover: of 129 unrelated creations with a user's code in the first, the last has it too. */
  lemma LeftoverMark() returns (made: seq<Made>)
    ensures Chained(made) && |made| == RING + 1
    ensures !HasUser(made, RING + 1) && Marked(made, RING + 1)
    ensures Slots(made, RING + 1)[RingIndex(made[RING].code)].useUser
  {
    made := seq(RING + 1, k requires 0 <= k =>
      Made(Code(OTHER, false, (k + 1) % 0x20_0000), 0, false, OTHER, if k == 0 then Some(7) else None, 0));
    forall n | 1 <= n <= |made| ensures Link(made, n) {
      assert made[n - 1].code == Code(OTHER, false, n % 0x20_0000);
    }
    assert Marked(made, 1);
    MarkHeld(made, RING + 1, RING + 1);
    CodeOf(made, RING + 1);
  }

  // ------------------------------------------------------------ the ring itself

  class Ring {
    var ring: array<Slot>
    var loc: nat
    ghost var made: seq<Made>

    ghost predicate Valid()
      reads this, ring
    {
      && ring.Length == RING
      && loc == |made|
      && ring[..] == Slots(made, |made|)
      && Chained(made)
    }

    constructor ()
      ensures Valid() && made == []
    {
      ring := new Slot[RING](_ => Blank);
      loc, made := 0, [];
    }

    method ErrcodeIsValid(errcode: int) returns (valid: bool)
      requires Valid()
      ensures valid == (0 <= errcode <= LAST_CLASS
                        || (0 <= errcode < 0x4000_0000 && Matches(ring[..], errcode)))
    {
      if 0 <= errcode <= LAST_CLASS {
        return true;
      }
      // No bit but those of the class, the index, the fatal flag and the code flag.
      if !(IsCode(errcode) && 0 <= errcode < 0x4000_0000) {
        return false;
      }
      return ring[RingIndex(errcode)].id == errcode;
    }

    method CreateCode(lastcode: int, fatal: bool, errorClass: nat, user: Option<int>) returns (code: int)
      requires Valid() && 0 < errorClass <= LAST_CLASS
      requires 0 <= lastcode <= LAST_CLASS || Matches(ring[..], lastcode)
      modifies this`loc, this`made, ring
      ensures Valid() && ring == old(ring)
      ensures Passed(errorClass, lastcode) == IN_STATUS ==>
        code == IN_STATUS && made == old(made) && ring[..] == old(ring[..])
      ensures Passed(errorClass, lastcode) != IN_STATUS ==>
        exists before :: made == old(made) + [Made(code, lastcode, fatal, errorClass, user, before)]
    {
      var cls := errorClass;
      if cls == OTHER {
        if Class(lastcode) != 0 {
          cls := Class(lastcode);
        }
      }
      if cls == IN_STATUS {
        return IN_STATUS;
      }
      ghost var before: nat := 0;
      if !(0 <= lastcode <= LAST_CLASS) {
        before := MatchIsRecent(made, lastcode);
      }
      code := Record(lastcode, fatal, errorClass, cls, user, before);
    }

    /** Makes the next slot that of a new code. */
    method Record(lastcode: int, fatal: bool, errorClass: nat, cls: nat, user: Option<int>, ghost before: nat)
      returns (code: int)
      requires Valid() == true
      requires 0 < errorClass < 128 && cls == Passed(errorClass, lastcode)
      requires before == 0 ==> 0 <= lastcode <= LAST_CLASS
      requires before != 0 ==> Recent(|made|, before) && made[before - 1].code == lastcode
      modifies this`loc, this`made, ring
      ensures Valid() == true && ring == old(ring)
      ensures made == old(made) + [Made(code, lastcode, fatal, errorClass, user, before)]
    {
      loc := loc + 1;
      var i := loc % 128;
      SlotIsRemainder(loc);
      var s := NextSlot(i, lastcode, user);
      code := Compose(cls, fatal || IsFatal(lastcode), loc);
      ghost var m := Made(code, lastcode, fatal, errorClass, user, before);
      Push(i, s.(prevError := lastcode, id := code), m);
    }

    method Push(i: nat, s: Slot, ghost m: Made)
      requires ring.Length == RING && ring[..] == Slots(made, |made|) && Chained(made) == true && 0 < m.cls < 128
      requires i == SlotOf(|made| + 1) && s == Put(ring[i], m, ring[RingIndex(m.lastcode)])
      requires m.code == Code(Passed(m.cls, m.lastcode), m.fatal || IsFatal(m.lastcode), (|made| + 1) % 0x20_0000)
      requires m.before == 0 ==> 0 <= m.lastcode <= LAST_CLASS
      requires m.before != 0 ==> Recent(|made|, m.before) && made[m.before - 1].code == m.lastcode
      modifies this`made, ring
      ensures made == old(made) + [m] && ring[..] == Slots(made, |made|) && Chained(made) == true
    {
      SlotsPushed(made, m);
      Relink(made, m);
      made := made + [m];
      SetSlot(i, s);
    }

    method SetSlot(i: nat, s: Slot)
      requires i < ring.Length
      modifies ring
      ensures ring[..] == old(ring[..])[i := s]
    {
      ring[i] := s;
    }

    method Compose(cls: nat, fatal: bool, n: nat) returns (code: int)
      ensures code == Code(cls, fatal, n % 0x20_0000)
    {
      code := cls + 256 + 512 * (n % 0x20_0000);
      if fatal {
        code := code + 128;
      }
    }

    method NextSlot(i: nat, lastcode: int, user: Option<int>) returns (s: Slot)
      requires ring.Length == RING && i < RING
      ensures s == Carry(ring[i], lastcode, user, ring[RingIndex(lastcode)])
    {
      s := ring[i];
      if user.Some? {
        s := s.(useUser := true, userCode := user.value);
      } else if IsCode(lastcode) {
        var last := ring[RingIndex(lastcode)];
        if last.id == lastcode {
          if last.useUser {
            s := s.(useUser := true, userCode := last.userCode);
          }
        }
      }
    }

    method GetUserErrorCode(errcode: int) returns (code: int)
      requires Valid()
      ensures Matches(ring[..], errcode) && ring[RingIndex(errcode)].useUser ==>
        code == ring[RingIndex(errcode)].userCode
      ensures forall n :: Recent(|made|, n) && made[n - 1].code == errcode ==>
        (HasUser(made, n) ==> code == User(made, n)) && (!Marked(made, n) ==> code == errcode)
    {
      forall n | Recent(|made|, n) && made[n - 1].code == errcode
        ensures RingIndex(errcode) == SlotOf(n) && IsCode(errcode)
        ensures ring[SlotOf(n)].id == errcode
        ensures ring[SlotOf(n)].useUser <==> Marked(made, n)
        ensures HasUser(made, n) ==> ring[SlotOf(n)].useUser && ring[SlotOf(n)].userCode == User(made, n)
      {
        CodeOf(made, n);
        Held(made, |made|, n);
        MarkHeld(made, |made|, n);
        if HasUser(made, n) {
          UserHeld(made, |made|, n);
        }
      }
      if !IsCode(errcode) {
        return errcode;
      }
      var s := ring[RingIndex(errcode)];
      if s.id == errcode && s.useUser {
        return s.userCode;
      }
      return errcode;
    }

    /** The slots whose messages make up the stack of any code, and the code it ends with. */
    method Stack(errcode: int) returns (slots: seq<nat>, rest: int, ghost first: nat)
      requires Valid()
      ensures |slots| <= RING && !Matches(ring[..], rest)
      ensures !Matches(ring[..], errcode) ==> slots == [] && rest == errcode
      ensures Matches(ring[..], errcode) ==> Recent(|made|, first) && made[first - 1].code == errcode
      ensures Matches(ring[..], errcode) ==> slots == SlotsOf(Trail(made, first))
    {
      slots, rest, first := [], errcode, 0;
      if Matches(ring[..], errcode) {
        first := MatchIsRecent(made, errcode);
      }
      ghost var n: nat := first;
      TrailLength(made, first);
      while IsCode(rest)
        invariant n <= |made|
        invariant Matches(ring[..], rest) == Recent(|made|, n)
        invariant Recent(|made|, n) ==> made[n - 1].code == rest
        invariant slots + SlotsOf(Trail(made, n)) == SlotsOf(Trail(made, first))
        invariant rest == errcode || Recent(|made|, first)
        decreases n, if Matches(ring[..], rest) then 1 else 0
      {
        var i := RingIndex(rest);
        if ring[i].id != rest {
          break;
        }
        ghost var before := TrailStep(made, n);
        Regroup(slots, i, SlotsOf(Trail(made, before)));
        slots := slots + [i];
        rest := ring[i].prevError;
        n := before;
      }
    }
  }

  lemma Relink(made: seq<Made>, m: Made)
    requires Chained(made) == true && 0 < m.cls < 128
    requires m.code == Code(Passed(m.cls, m.lastcode), m.fatal || IsFatal(m.lastcode), (|made| + 1) % 0x20_0000)
    requires m.before == 0 ==> 0 <= m.lastcode <= LAST_CLASS
    requires m.before != 0 ==> Recent(|made|, m.before) && made[m.before - 1].code == m.lastcode
    ensures Chained(made + [m])
  {
    forall n | 1 <= n <= |made + [m]| ensures Link(made + [m], n) {
      if n <= |made| {
        assert Link(made, n);
      }
    }
  }
}
