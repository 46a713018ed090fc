/**
 The routines of argstr.cpp over their buffers. A pointer into a text is a position in it, and
 the null pointer is the end of the text: every routine treats the two alike.
 */
module ArgStr {
  import opened ArgText

  const SUCCESS: int := 0
  const FAIL: int := -1
  const NOMEM: int := 1

  function At(text: string, i: nat): char { if i < |text| then text[i] else '\0' }

  lemma Step(text: string, i: nat)
    requires i < |text|
    ensures text[i..] != "" && text[i..][0] == text[i] && text[i..][1..] == text[i + 1..]
    ensures i + 1 < |text| ==> text[i..][1] == text[i + 1] && text[i..][2..] == text[i + 2..]
  {
  }

  // ------------------------------------------------------------ tokens

  method SkipToToken(text: string, i: nat) returns (r: nat)
    requires i <= |text|
    ensures i <= r <= |text| && text[r..] == FirstToken(text[i..])
    ensures r < |text| ==> text[r] != SEPAR
  {
    r := i;
    while At(text, r) == SEPAR
      invariant i <= r <= |text| && FirstToken(text[r..]) == FirstToken(text[i..])
      decreases |text| - r
    {
      Step(text, r);
      r := r + 1;
    }
  }

  method SkipToken(text: string, start: nat) returns (r: nat)
    requires start <= |text| && (start < |text| ==> text[start] != SEPAR)
    ensures start <= r <= |text| && text[r..] == NextToken(text[start..])
    ensures start < |text| ==> start < r
    ensures r < |text| ==> text[r] != SEPAR
  {
    if start == |text| {
      return start;
    }
    Step(text, start);
    if text[start] == QUOTE {
      r := SkipQuoted(text, start + 1);
    } else if text[start] == DELIM {
      r := start + 1;
    } else {
      r := SkipLiteral(text, start);
    }
    r := SkipToToken(text, r);
  }

  /** One more character of a literal. */
  lemma LiteralStep(text: string, r: nat)
    requires r < |text| && text[r] != SEPAR && text[r] != DELIM
    ensures Literal(text[r..]) == [text[r]] + Literal(text[r + 1..])
  {
    Step(text, r);
  }

  lemma Ends(a: string)
    ensures a + "" == a
  {
  }

  lemma Regroup(a: string, c: char, b: string)
    ensures a + ([c] + b) == a + [c] + b
  {
  }

  method SkipLiteral(text: string, i: nat) returns (r: nat)
    requires i < |text| && text[i] != SEPAR && text[i] != DELIM
    ensures i < r <= |text| && text[r..] == text[i..][|Literal(text[i..])|..]
  {
    r := i;
    while r < |text| && text[r] != SEPAR && text[r] != DELIM
      invariant i <= r <= |text|
      invariant r - i + |Literal(text[r..])| == |Literal(text[i..])|
    {
      LiteralStep(text, r);
      r := r + 1;
    }
    assert Literal(text[r..]) == "";
    LiteralStep(text, i);
  }

  method SkipQuoted(text: string, i: nat) returns (r: nat)
    requires i <= |text|
    ensures i <= r <= |text| && text[r..] == AfterQuote(text[i..])
  {
    r := i;
    if r == |text| {
      return;
    }
    while text[r] != QUOTE
      invariant i <= r < |text| && AfterQuote(text[r..]) == AfterQuote(text[i..])
      decreases |text| - r
    {
      Step(text, r);
      if text[r] == ESCAPE {
        r := r + 1;
      }
      r := r + 1;
      if r >= |text| {
        return |text|;
      }
    }
    Step(text, r);
    r := r + 1;
  }

  /** compare_token, as far as its callers look: whether it gives 0. */
  method CompareToken(text: string, i: nat, str: string) returns (same: bool)
    requires i <= |text| && CString(str)
    ensures same == (i < |text| && Matches(text[i..], str))
  {
    if i == |text| {
      return false;
    }
    Step(text, i);
    if text[i] == QUOTE {
      same := CompareQuoted(text, i + 1, str);
      return;
    }
    if text[i] == DELIM {
      return |str| == 1 && str[0] == DELIM;
    }
    var r, j := i, 0;
    while r < |text| && j < |str| && text[r] == str[j] && text[r] != DELIM && text[r] != SEPAR
      invariant i <= r <= |text| && j <= |str|
      invariant MatchesLiteral(text[r..], str[j..]) == MatchesLiteral(text[i..], str)
    {
      Step(text, r);
      Step(str, j);
      r, j := r + 1, j + 1;
    }
    return j == |str| && (r == |text| || text[r] == DELIM || text[r] == SEPAR);
  }

  method CompareQuoted(text: string, i: nat, str: string) returns (same: bool)
    requires i <= |text| && CString(str)
    ensures same == MatchesQuoted(text[i..], str)
  {
    var r, j := i, 0;
    while true
      invariant i <= r <= |text| && j <= |str|
      invariant MatchesQuoted(text[r..], str[j..]) == MatchesQuoted(text[i..], str)
      decreases |str| - j
    {
      QuotedStep(text, r, str, j);
      if At(text, r) == ESCAPE {
        r := r + 1;
        if At(text, r) != At(str, j) {
          break;
        }
      } else {
        if At(text, r) != At(str, j) || At(text, r) == QUOTE {
          break;
        }
      }
      if j == |str| {
        break;
      }
      r, j := r + 1, j + 1;
    }
    return j == |str| && At(text, r) == QUOTE;
  }

  lemma QuotedStep(text: string, r: nat, str: string, j: nat)
    requires r <= |text| && j <= |str| && CString(str)
    ensures var q := if At(text, r) == ESCAPE then r + 1 else r;
            q <= |text| && MatchesQuoted(text[r..], str[j..]) ==
              if q == |text| || j == |str| || text[q] != str[j] || (q == r && text[q] == QUOTE)
              then j == |str| && At(text, q) == QUOTE
              else MatchesQuoted(text[q + 1..], str[j + 1..])
  {
    var q := if At(text, r) == ESCAPE then r + 1 else r;
    if r < |text| {
      Step(text, r);
    }
    if q < |text| {
      Step(text, q);
    }
    if j < |str| {
      Step(str, j);
    }
  }

  // ------------------------------------------------------------ copying a token

  /** What copying a token into room for n characters gives: no room is an error of its own. */
  function CopyStatus(token: string, n: nat): int {
    if n == 0 then FAIL
    else if n == 1 then (if token == "" then SUCCESS else NOMEM)
    else if |TokenOf(token)| >= n then NOMEM
    else if Whole(token) then SUCCESS
    else FAIL
  }

  /** The buffer begins with the string and its terminator. */
  ghost predicate Says(val: array<char>, s: string)
    reads val
  {
    |s| < val.Length && val[..|s|] == s && val[|s|] == '\0'
  }

  method CopyToken(text: string, start: nat, val: array<char>, room: nat) returns (status: int)
    requires start <= |text| && room <= val.Length
    modifies val
    ensures var t := FirstToken(text[start..]);
            && (room > 1 || start == |text| || text[start] != SEPAR ==> status == CopyStatus(t, room))
            && (status == SUCCESS ==> Says(val, TokenOf(t)))
            && (status == NOMEM && room > 1 ==> Says(val, TokenOf(t)[..room - 1]))
  {
    if room < 1 {
      return FAIL;
    }
    if room == 1 {
      val[0] := '\0';
      if start < |text| {
        Step(text, start);
        return NOMEM;
      }
      return SUCCESS;
    }
    var i := SkipToToken(text, start);
    if i == |text| {
      val[0] := '\0';
      return SUCCESS;
    }
    Step(text, i);
    if text[i] == DELIM {
      val[0] := DELIM;
      val[1] := '\0';
      return SUCCESS;
    }
    if text[i] == QUOTE {
      status := CopyQuoted(text, i + 1, val, room);
    } else {
      status := CopyLiteral(text, i, val, room);
    }
  }

  method Store(val: array<char>, n: nat, c: char)
    requires n < val.Length
    modifies val
    ensures val[..n + 1] == old(val[..n]) + [c]
  {
    val[n] := c;
  }

  /** Ends the string in the buffer after its first n characters. */
  method Stop(val: array<char>, n: nat)
    requires n < val.Length
    modifies val
    ensures Says(val, old(val[..n]))
  {
    val[n] := '\0';
  }

  lemma Shorter(a: string, b: string, n: nat)
    requires n <= |a|
    ensures (a + b)[..n] == a[..n]
  {
  }

  /** One more character of a quoted token, at q, its escape skipped. */
  lemma RunStep(text: string, r: nat)
    requires r < |text| && text[r] != QUOTE
    ensures var q := if text[r] == ESCAPE then r + 1 else r;
            if q == |text| then Run(text[r..]) == "" && !Closed(text[r..])
            else Run(text[r..]) == [text[q]] + Run(text[q + 1..]) && Closed(text[r..]) == Closed(text[q + 1..])
  {
    Step(text, r);
  }

  method CopyQuoted(text: string, i: nat, val: array<char>, room: nat) returns (status: int)
    requires i <= |text| && 1 < room <= val.Length
    modifies val
    ensures var u := text[i..];
            && status == (if |Run(u)| >= room then NOMEM else if Closed(u) then SUCCESS else FAIL)
            && (status == SUCCESS ==> Says(val, Run(u)))
            && (status == NOMEM ==> Says(val, Run(u)[..room - 1]))
  {
    var r, n := i, 0;
    while n < room
      invariant i <= r <= |text| && 0 <= n <= room
      invariant val[..n] + Run(text[r..]) == Run(text[i..])
      invariant Closed(text[r..]) == Closed(text[i..])
    {
      if At(text, r) == QUOTE {
        Step(text, r);
        Ends(val[..n]);
        Stop(val, n);
        return SUCCESS;
      }
      if r < |text| {
        RunStep(text, r);
      }
      if At(text, r) == ESCAPE {
        r := r + 1;
      }
      if r == |text| {
        Ends(val[..n]);
        return FAIL;
      }
      Regroup(val[..n], text[r], Run(text[r + 1..]));
      Store(val, n, text[r]);
      r, n := r + 1, n + 1;
    }
    Shorter(val[..room], Run(text[r..]), room - 1);
    Stop(val, room - 1);
    return NOMEM;
  }

  method CopyLiteral(text: string, i: nat, val: array<char>, room: nat) returns (status: int)
    requires i <= |text| && 1 < room <= val.Length
    modifies val
    ensures var l := Literal(text[i..]);
            && status == (if |l| >= room then NOMEM else SUCCESS)
            && (status == SUCCESS ==> Says(val, l))
            && (status == NOMEM ==> Says(val, l[..room - 1]))
  {
    var r, n := i, 0;
    while r < |text| && text[r] != DELIM && text[r] != SEPAR && n < room
      invariant i <= r <= |text| && 0 <= n <= room
      invariant val[..n] + Literal(text[r..]) == Literal(text[i..])
    {
      LiteralStep(text, r);
      Regroup(val[..n], text[r], Literal(text[r + 1..]));
      Store(val, n, text[r]);
      r, n := r + 1, n + 1;
    }
    if n < room {
      assert Literal(text[r..]) == "";
      Ends(val[..n]);
      Stop(val, n);
      return SUCCESS;
    }
    Shorter(val[..room], Literal(text[r..]), room - 1);
    Stop(val, room - 1);
    return NOMEM;
  }

  // ------------------------------------------------------------ reading

  /** MPIU_Str_get_string: 0, or -1 for too little room, or -2; at the end of the text an empty string. */
  method GetString(text: string, start: nat, val: array<char>, room: nat) returns (result: int, next: nat)
    requires start <= |text| && room <= val.Length
    modifies val
    ensures room == 0 ==> result == -2
    ensures next <= |text|
    ensures var t := FirstToken(text[start..]);
            && (room > 0 && t == "" ==> result == 0 && Says(val, "") && next == start)
            && (room > 0 && t != "" ==>
                  (result == 0 <==> CopyStatus(t, room) == SUCCESS)
                  && (result == -1 <==> CopyStatus(t, room) == NOMEM)
                  && (result == 0 ==> Says(val, TokenOf(t)) && text[next..] == NextToken(t)))
    ensures result == 0 || result == -1 || result == -2
    ensures result != 0 ==> next == start
  {
    if room < 1 {
      return -2, start;
    }
    val[0] := '\0';
    next := start;
    var i := SkipToToken(text, start);
    if i == |text| {
      return 0, start;
    }
    TokenIsFirst(text, i);
    var status := CopyToken(text, i, val, room);
    if status == SUCCESS {
      next := SkipToken(text, i);
      return 0, next;
    } else if status == NOMEM {
      return -1, start;
    }
    return -2, start;
  }

  lemma TokenIsFirst(text: string, i: nat)
    requires i < |text| && text[i] != SEPAR
    ensures FirstToken(text[i..]) == text[i..]
  {
    Step(text, i);
  }

  /** MPIU_Str_get_string_arg: the value at the place the key is looked up to. */
  method GetStringArg(text: string, flag: string, val: array<char>, room: nat) returns (status: int)
    requires CString(flag) && room <= val.Length
    modifies val
    ensures room == 0 ==> status == FAIL
    ensures room > 0 ==>
      var found := Lookup(FirstToken(text), flag);
      && status == (if found.None? then FAIL else CopyStatus(found.value, room))
      && (status == SUCCESS ==> Says(val, TokenOf(found.value)))
  {
    if room < 1 {
      return FAIL;
    }
    var i := SkipToToken(text, 0);
    assert text[0..] == text;
    ghost var first := text[i..];
    while i < |text|
      invariant i <= |text| && (i < |text| ==> text[i] != SEPAR)
      invariant Lookup(text[i..], flag) == Lookup(first, flag)
      decreases |text| - i
    {
      Step(text, i);
      ghost var t := text[i..];
      var same := CompareToken(text, i, flag);
      i := SkipToken(text, i);
      if same {
        var delim := CompareToken(text, i, [DELIM]);
        if delim {
          i := SkipToken(text, i);
          if i == |text| {
            return FAIL;
          }
          TokenIsFirst(text, i);
          status := CopyToken(text, i, val, room);
          return;
        }
      }
    }
    return FAIL;
  }

  // ------------------------------------------------------------ writing

  /** What is to be written of a quoted value from its k-th character on. */
  ghost function Tail(val: string, k: nat): (t: string)
    requires k <= |val|
    ensures t != ""
  {
    Escape(val[k..]) + [QUOTE]
  }

  lemma TailStep(val: string, k: nat)
    requires k < |val|
    ensures Tail(val, k) == Escaped(val[k]) + Tail(val, k + 1)
  {
    Step(val, k);
    Assoc(Escaped(val[k]), Escape(val[k + 1..]), [QUOTE]);
  }

  lemma TailEnd(val: string)
    ensures Tail(val, |val|) == [QUOTE]
  {
  }

  lemma EscapeFirst(base: string, c: char, rest: string)
    requires c == QUOTE || c == ESCAPE
    ensures var whole := base + (Escaped(c) + rest);
            whole[..|base| + 1] == base + [ESCAPE] && base + [ESCAPE] + [c] + rest == whole
  {
  }

  function Min(a: int, b: int): int { if a < b then a else b }

  /** What is printed of a key or value: nothing when it is a literal that does not fit. */
  function Fitted(spelled: string, quotes: bool, room: int): string {
    if quotes || |spelled| < room then spelled else ""
  }

  /** What MPIU_Str_add_string_arg spells of an entry. */
  function Spelled(key: string, val: string, left: int): string {
    var k := Fitted(KeyForm(key), NeedsQuotes(key), left);
    var v := Fitted(ValueForm(val), NeedsQuotes(val), left - |k| - 1);
    k + [DELIM] + v + [SEPAR]
  }

  /** A literal key or value is too long for the room, and what is spelled without it fits. */
  predicate LeavesOut(key: string, val: string, left: int) {
    var k, v := |KeyForm(key)|, |ValueForm(val)|;
    if !NeedsQuotes(key) && left <= k then 2 < left && (if NeedsQuotes(val) then v + 2 < left else v + 2 != left)
    else !NeedsQuotes(val) && left <= k + v + 1 && k + 2 < left
  }

  /** The whole entry is spelled and fits exactly when it is short enough; otherwise something may be left out. */
  lemma EntryOrLess(key: string, val: string, left: int)
    requires 1 <= left
    ensures var (s, e) := (Spelled(key, val, left), Entry(Arg(key, val)));
            && (|s| < left && s == e <==> |e| < left)
            && (|s| < left && s != e <==> LeavesOut(key, val, left))
  {
  }

  /** In room for 3, a key and a value that are longer are reported as added, and neither is there. */
  lemma BothLeftOut()
    ensures LeavesOut("abcdef", "xyz", 3) && Spelled("abcdef", "xyz", 3) == "= "
  {
  }

  lemma SameAppended(a: string, b: string, c: string)
    ensures a + b == a + c <==> b == c
  {
    assert (a + b)[|a|..] == b && (a + c)[|a|..] == c;
  }

  /** A buffer being filled: str_ptr and maxlen_ptr. */
  class Writer {
    const buf: array<char>
    var at: nat
    var left: int

    ghost predicate Valid()
      reads this
    {
      0 <= left && at + left <= buf.Length
    }

    /** What has been added so far. */
    ghost function Text(): string
      reads this, buf
      requires Valid()
    {
      buf[..at]
    }

    constructor (buf: array<char>)
      ensures Valid() && this.buf == buf && at == 0 && left == buf.Length
    {
      this.buf := buf;
      at, left := 0, buf.Length;
    }

    method Put(p: nat, c: char)
      requires p < buf.Length
      modifies buf
      ensures buf[..p + 1] == old(buf[..p]) + [c]
    {
      buf[p] := c;
    }

    /** Ends the text before p. */
    method End(p: nat)
      requires p < buf.Length
      modifies buf
      ensures buf[p] == '\0' && buf[..p] == old(buf[..p])
    {
      buf[p] := '\0';
    }

    /** One character of the value, escaped; cut short when only its escape fits. */
    method PutEscaped(p: nat, room: nat, c: char, ghost rest: string, ghost whole: string)
      returns (count: nat, cut: bool)
      requires 0 < room && p + room <= buf.Length
      requires buf[..p] + (Escaped(c) + rest) == whole
      modifies buf
      ensures cut == (|Escaped(c)| > room)
      ensures cut ==> count == room && p + count < |whole| && buf[..p + count] == whole[..p + count]
      ensures !cut ==> 0 < count <= room && buf[..p + count] + rest == whole
    {
      ghost var base := buf[..p];
      count := 0;
      if c == QUOTE || c == ESCAPE {
        EscapeFirst(base, c, rest);
        Put(p, ESCAPE);
        count := 1;
        if count == room {
          return count, true;
        }
      }
      Put(p + count, c);
      count := count + 1;
      cut := false;
      if Escaped(c) == [c] {
        Regroup(base, c, rest);
      }
    }

    /** quoted_printf: as much of the quoted value as there is room for. */
    method QuotedPrintf(p: nat, room: nat, val: string) returns (count: nat)
      requires p + room <= buf.Length
      modifies buf
      ensures count == Min(|Quoted(val)|, room)
      ensures buf[..p + count] == old(buf[..p]) + Quoted(val)[..count]
      ensures count < room ==> buf[p + count] == '\0'
    {
      count := 0;
      if room < 1 {
        return;
      }
      Put(p, QUOTE);
      Begin(old(buf[..p]), val);
      var ended;
      count, ended := PutBody(p, room, val, old(buf[..p]) + Quoted(val));
      Prefix(old(buf[..p]), Quoted(val), count);
      if ended && count < room {
        End(p + count);
      }
    }

    /** The rest of a quoted value after its opening quote, or what fits of it. */
    method PutBody(p: nat, room: nat, val: string, ghost whole: string) returns (count: nat, ended: bool)
      requires 0 < room && p + room <= buf.Length
      requires buf[..p + 1] + Tail(val, 0) == whole
      modifies buf
      ensures count <= room && p + count <= |whole| && buf[..p + count] == whole[..p + count]
      ensures ended ==> p + count == |whole|
      ensures !ended ==> count == room
    {
      count := 1;
      var k := 0;
      while count < room && k < |val|
        invariant 1 <= count <= room && k <= |val|
        invariant buf[..p + count] + Tail(val, k) == whole
        decreases |val| - k
      {
        TailStep(val, k);
        var n, cut := PutEscaped(p + count, room - count, val[k], Tail(val, k + 1), whole);
        count := count + n;
        if cut {
          return count, false;
        }
        k := k + 1;
      }
      if count < room {
        TailEnd(val);
        Put(p + count, QUOTE);
        return count + 1, true;
      }
      Restart(buf[..p + count], Tail(val, k));
      return count, false;
    }

    /** MPIU_Snprintf: on overflow what fits is written, and 0 is returned. */
    method Snprintf(p: nat, room: nat, s: string) returns (count: nat)
      requires p + room <= buf.Length
      modifies buf
      ensures count == if |s| < room then |s| else 0
      ensures room == 0 ==> buf[..] == old(buf[..])
      ensures room > 0 ==>
        var n := Min(|s|, room - 1);
        buf[..p + n] == old(buf[..p]) + s[..n] && buf[p + n] == '\0'
    {
      if room == 0 {
        return 0;
      }
      var n := Min(|s|, room - 1);
      var k := 0;
      while k < n
        invariant 0 <= k <= n
        invariant buf[..p + k] == old(buf[..p]) + s[..k]
      {
        Put(p + k, s[k]);
        assert s[..k] + [s[k]] == s[..k + 1];
        k := k + 1;
      }
      End(p + n);
      return if |s| < room then |s| else 0;
    }

    /** MPIU_Str_add_string: a quoted string that does not fit is an error, a literal that does not is cut unreported. */
    method AddString(val: string) returns (result: int)
      requires Valid() && 0 < left
      modifies this`at, this`left, buf
      ensures Valid() && 0 < left && at + left == old(at + left)
      ensures result == (if Special(val) && |Quoted(val)| >= old(left) then -1 else 0)
      ensures |Printed(val)| < old(left) ==> Text() == old(Text()) + Printed(val)
      ensures Special(val) && |Quoted(val)| + 1 == old(left) ==>
        left == 1 && Text() + [SEPAR] == old(Text()) + Printed(val)
      ensures |Printed(val)| > old(left) || (!Special(val) && |Printed(val)| == old(left)) ==>
        Text() == old(Text()) && at == old(at)
      ensures !Special(val) && |Printed(val)| >= old(left) ==>
        buf[..at + left - 1] == old(Text()) + Printed(val)[..left - 1] && buf[at + left - 1] == '\0'
      ensures result != 0 || Special(val) || |Printed(val)| < old(left) ==> buf[at] == '\0'
    {
      if SEPAR in val || QUOTE in val || DELIM in val {
        result := AddQuoted(val);
      } else {
        var n := Snprintf(at, left, if val == "" then [QUOTE, QUOTE] else val + [SEPAR]);
        at := at + n;
        left := left - n;
        result := 0;
      }
    }

    method AddQuoted(val: string) returns (result: int)
      requires Valid() && 0 < left
      modifies this`at, this`left, buf
      ensures Valid() && 0 < left && at + left == old(at + left) && buf[at] == '\0'
      ensures result == (if |Quoted(val)| >= old(left) then -1 else 0)
      ensures result != 0 ==> Text() == old(Text()) && at == old(at)
      ensures |Quoted(val)| + 1 < old(left) ==> Text() == old(Text()) + (Quoted(val) + [SEPAR])
      ensures |Quoted(val)| + 1 == old(left) ==> left == 1 && Text() == old(Text()) + Quoted(val)
    {
      var n := QuotedPrintf(at, left, val);
      if n == left {
        Restart(old(buf[..at]), Quoted(val)[..n]);
        End(at);
        return -1;
      }
      if n < left - 1 {
        Put(at + n, SEPAR);
        n := n + 1;
        End(at + n);
      } else {
        End(at + n);
      }
      at := at + n;
      left := left - n;
      return 0;
    }

    /** Prints a key or a value; a quoted one may fill the room. */
    method PrintPart(p: nat, room: nat, s: string, quotes: bool) returns (n: nat)
      requires p + room <= buf.Length
      modifies buf
      ensures var f := Fitted(if quotes then Quoted(s) else s, quotes, room);
              n == Min(|f|, room) && buf[..p + n] == old(buf[..p]) + f[..n]
    {
      if quotes {
        n := QuotedPrintf(p, room, s);
      } else {
        n := Snprintf(p, room, s);
        if room > 0 && |s| >= room {
          Restart(old(buf[..p]), s[..room - 1]);
        }
      }
    }

    /**
     MPIU_Str_add_string_arg: what is spelled of "key=value " is appended, or NOMEM. It is the
     whole entry exactly when that fits; a literal that does not can also be left out unreported.
     */
    method AddStringArg(key: string, val: string) returns (status: int)
      requires Valid()
      modifies this`at, this`left, buf
      ensures Valid()
      ensures old(left) < 1 ==> status == FAIL && at == old(at) && left == old(left)
      ensures status != SUCCESS ==> at == old(at)
      ensures old(left) >= 1 ==> status == if |Spelled(key, val, old(left))| < old(left) then SUCCESS else NOMEM
      ensures status == SUCCESS ==> Text() == old(Text()) + Spelled(key, val, old(left))
      ensures status == SUCCESS ==> buf[at] == '\0' && at + left == old(at + left)
      ensures status == NOMEM ==> buf[at] == '\0'
      ensures status == NOMEM ==> left == if NeedsQuotes(key) && |KeyForm(key)| >= old(left) then 0 else old(left)
      ensures old(left) >= 1 ==>
        (status == SUCCESS && Text() == old(Text()) + Entry(Arg(key, val)) <==> |Entry(Arg(key, val))| < old(left))
      ensures old(left) >= 1 ==>
        (status == SUCCESS && Text() != old(Text()) + Entry(Arg(key, val)) <==> LeavesOut(key, val, old(left)))
    {
      if left < 1 {
        return FAIL;
      }
      EntryOrLess(key, val, left);
      ghost var room, e, s := left, Entry(Arg(key, val)), Spelled(key, val, left);
      status := AddSpelled(key, val);
      SameAppended(old(buf[..at]), e, s);
    }

    method AddSpelled(key: string, val: string) returns (status: int)
      requires Valid() && 0 < left
      modifies this`at, this`left, buf
      ensures Valid() && status == if |Spelled(key, val, old(left))| < old(left) then SUCCESS else NOMEM
      ensures status == SUCCESS ==> Text() == old(Text()) + Spelled(key, val, old(left))
      ensures status == SUCCESS ==> buf[at] == '\0' && at + left == old(at + left)
      ensures status != SUCCESS ==> at == old(at) && buf[at] == '\0'
      ensures status != SUCCESS ==> left == if NeedsQuotes(key) && |KeyForm(key)| >= old(left) then 0 else old(left)
    {
      ghost var k := Fitted(KeyForm(key), NeedsQuotes(key), left);
      var n := PrintPart(at, left, key, SEPAR in key || DELIM in key || Head(key) == QUOTE);
      if left - n < 1 {
        left := left - n;
        Restart(old(buf[..at]), KeyForm(key)[..n]);
        End(at);
        return NOMEM;
      }
      status := AddValue(n, val, old(buf[..at]), k, Fitted(ValueForm(val), NeedsQuotes(val), left - |k| - 1));
    }

    /** The rest of an entry after the n characters of its key; v is what is printed of the value. */
    method AddValue(n: nat, val: string, ghost base: string, ghost k: string, ghost v: string) returns (status: int)
      requires Valid() && n < left && n == |k| && |base| == at && buf[..at + n] == base + k
      requires v == Fitted(ValueForm(val), NeedsQuotes(val), left - n - 1)
      modifies this`at, this`left, buf
      ensures Valid() && status == if n + |v| + 2 < old(left) then SUCCESS else NOMEM
      ensures status != SUCCESS ==> at == old(at) && left == old(left) && buf[at] == '\0'
      ensures status == SUCCESS ==> Text() == base + (k + [DELIM] + v + [SEPAR])
      ensures status == SUCCESS ==> buf[at] == '\0' && at + left == old(at + left)
    {
      Put(at + n, DELIM);
      var m := PrintValue(at + n + 1, left - n - 1, val);
      status := Conclude(n + 1 + m);
      if status == SUCCESS {
        assert v[..m] == v;
        Together(base, k, [DELIM], v, [SEPAR]);
      }
    }

    method PrintValue(p: nat, room: nat, val: string) returns (m: nat)
      requires p + room <= buf.Length
      modifies buf
      ensures var v := Fitted(ValueForm(val), NeedsQuotes(val), room);
              m == Min(|v|, room) && buf[..p + m] == old(buf[..p]) + v[..m]
    {
      if val == "" {
        m := PrintPart(p, room, [QUOTE, QUOTE], false);
      } else {
        m := PrintPart(p, room, val, SEPAR in val || DELIM in val || Head(val) == QUOTE);
      }
    }

    /** The separator after the n characters of an entry, if there is room, or the text ends where it did. */
    method Conclude(n: nat) returns (status: int)
      requires Valid() && n <= left && 0 < left
      modifies this`at, this`left, buf
      ensures Valid() && status == if n + 1 < old(left) then SUCCESS else NOMEM
      ensures status != SUCCESS ==> at == old(at) && left == old(left) && buf[at] == '\0'
      ensures status == SUCCESS ==> Text() == old(buf[..at + n]) + [SEPAR] && buf[at] == '\0'
      ensures status == SUCCESS ==> at + left == old(at + left)
    {
      if left - n < 2 {
        End(at);
        return NOMEM;
      }
      Put(at + n, SEPAR);
      End(at + n + 1);
      at := at + n + 1;
      left := left - n - 1;
      return SUCCESS;
    }
  }

  lemma Begin(base: string, val: string)
    ensures base + [QUOTE] + Tail(val, 0) == base + Quoted(val)
  {
    assert val[0..] == val;
    Assoc([QUOTE], Escape(val), [QUOTE]);
    Assoc(base, [QUOTE], Tail(val, 0));
  }

  lemma Prefix(base: string, q: string, n: nat)
    requires n <= |q|
    ensures (base + q)[..|base| + n] == base + q[..n]
  {
  }

  lemma Restart(base: string, more: string)
    ensures (base + more)[..|base|] == base
  {
  }

  lemma Together(a: string, b: string, c: string, d: string, e: string)
    ensures a + b + c + d + e == a + (b + c + d + e)
  {
  }

  // ------------------------------------------------------------ round trips

  /** The string that a buffer holds. */
  method Held(val: array<char>, ghost s: string) returns (r: string)
    requires Says(val, s) && CString(s)
    ensures r == s
  {
    var n := 0;
    while val[n] != '\0'
      invariant 0 <= n <= |s|
      invariant n < |s| ==> val[n] == val[..|s|][n] == s[n]
      decreases |s| - n
    {
      n := n + 1;
    }
    return val[..n];
  }

  lemma JoinedStep(ss: seq<string>, k: nat)
    requires k < |ss|
    ensures Joined(ss[..k + 1]) == Joined(ss[..k]) + Printed(ss[k])
  {
    JoinedMore(ss[..k], ss[k]);
    assert ss[..k] + [ss[k]] == ss[..k + 1];
  }

  lemma {:induction false} JoinedGrows(ss: seq<string>, k: nat)
    requires k <= |ss|
    ensures |Joined(ss[..k])| <= |Joined(ss)|
    decreases |ss| - k
  {
    if k == |ss| {
      assert ss[..k] == ss;
    } else {
      JoinedStep(ss, k);
      JoinedGrows(ss, k + 1);
    }
  }

  /** What MPIU_Str_add_string puts into a large enough buffer, MPIU_Str_get_string gives back. */
  method AddAndGet(ss: seq<string>, buf: array<char>, val: array<char>) returns (out: seq<string>)
    requires |Joined(ss)| < buf.Length && buf != val
    requires forall k :: 0 <= k < |ss| ==> CString(ss[k]) && |ss[k]| < val.Length
    requires 1 < val.Length
    modifies buf, val
    ensures out == ss
  {
    var text := AddAll(ss, buf);
    out := GetAll(ss, text, val);
  }

  method AddAll(ss: seq<string>, buf: array<char>) returns (text: string)
    requires |Joined(ss)| < buf.Length
    modifies buf
    ensures text == Joined(ss)
  {
    var w := new Writer(buf);
    var k := 0;
    while k < |ss|
      invariant k <= |ss| && w.buf == buf && fresh(w)
      invariant w.Valid() && w.at + w.left == buf.Length
      invariant w.Text() == Joined(ss[..k])
    {
      JoinedStep(ss, k);
      JoinedGrows(ss, k + 1);
      var result := w.AddString(ss[k]);
      k := k + 1;
    }
    assert ss[..k] == ss;
    return buf[..w.at];
  }

  method GetAll(ss: seq<string>, text: string, val: array<char>) returns (out: seq<string>)
    requires text == Joined(ss) && 1 < val.Length
    requires forall k :: 0 <= k < |ss| ==> CString(ss[k]) && |ss[k]| < val.Length
    modifies val
    ensures out == ss
  {
    var i, k := 0, 0;
    out := [];
    assert ss[0..] == ss && text[0..] == text;
    while i < |text|
      invariant i <= |text| && k <= |ss| && out == ss[..k]
      invariant text[i..] == Joined(ss[k..])
      decreases |text| - i
    {
      var s, next := GetOne(ss, k, text, i, val);
      out := out + [s];
      i, k := next, k + 1;
    }
    JoinedEmpty(ss[k..]);
  }

  method GetOne(ss: seq<string>, k: nat, text: string, i: nat, val: array<char>) returns (s: string, next: nat)
    requires i < |text| && k <= |ss| && text[i..] == Joined(ss[k..]) && 1 < val.Length
    requires k < |ss| ==> CString(ss[k]) && |ss[k]| < val.Length
    modifies val
    ensures k < |ss| && s == ss[k]
    ensures i < next <= |text| && text[next..] == Joined(ss[k + 1..])
  {
    ghost var rest := JoinedHead(ss, k);
    FitStatus(text[i..], ss[k], val.Length);
    var result;
    result, next := GetString(text, i, val, val.Length);
    assert |text[next..]| < |text[i..]|;
    s := Held(val, ss[k]);
  }

  lemma FitStatus(t: string, v: string, n: nat)
    requires t != "" && TokenOf(t) == v && Whole(t) && |v| < n && 1 < n
    ensures CopyStatus(t, n) == SUCCESS
  {
  }

  lemma JoinedEmpty(ss: seq<string>)
    requires Joined(ss) == ""
    ensures ss == []
  {
  }

  lemma JoinedHead(ss: seq<string>, k: nat) returns (rest: string)
    requires k <= |ss| && Joined(ss[k..]) != ""
    ensures k < |ss| && rest == Joined(ss[k + 1..])
    ensures var t := Joined(ss[k..]);
            FirstToken(t) == t != "" && TokenOf(t) == ss[k] && Whole(t) && NextToken(t) == rest
  {
    assert k < |ss|;
    rest := Joined(ss[k + 1..]);
    assert ss[k..][1..] == ss[k + 1..];
    PrintedReads(ss[k], rest);
    if k + 1 < |ss| {
      assert ss[k + 1..][1..] == ss[k + 2..];
      PrintedReads(ss[k + 1], Joined(ss[k + 2..]));
    }
  }

  lemma EntriesStep(args: seq<Arg>, k: nat)
    requires k < |args|
    ensures Entries(args[..k + 1]) == Entries(args[..k]) + Entry(args[k])
  {
    var first, a := args[..k], args[k];
    assert args[..k + 1] == first + [a];
    EntriesMore(first, a);
  }

  lemma {:induction false} EntriesGrows(args: seq<Arg>, k: nat)
    requires k <= |args|
    ensures |Entries(args[..k])| <= |Entries(args)|
    decreases |args| - k
  {
    if k == |args| {
      assert args[..k] == args;
    } else {
      EntriesStep(args, k);
      EntriesGrows(args, k + 1);
    }
  }

  /** What MPIU_Str_add_string_arg puts into a large enough buffer, MPIU_Str_get_string_arg finds. */
  method AddAndFind(args: seq<Arg>, flag: string, buf: array<char>, val: array<char>)
    returns (status: int, value: string)
    requires |Entries(args)| < buf.Length && buf != val && 1 < val.Length
    requires forall k :: 0 <= k < |args| ==> CString(args[k].value) && |args[k].value| < val.Length
    requires Keys(args) && CString(flag) && flag != [DELIM]
    modifies buf, val
    ensures status == if FirstValue(args, flag).Some? then SUCCESS else FAIL
    ensures status == SUCCESS ==> value == FirstValue(args, flag).value
  {
    var text := AddArgs(args, buf);
    EntriesStart(args);
    LookupFinds(args, flag);
    ValueOf(args, flag);
    status := GetStringArg(text, flag, val, val.Length);
    value := "";
    if status == SUCCESS {
      value := Held(val, FirstValue(args, flag).value);
    }
  }

  lemma {:induction false} ValueOf(args: seq<Arg>, f: string)
    ensures FirstValue(args, f).Some? ==> exists k :: 0 <= k < |args| && args[k].value == FirstValue(args, f).value
  {
    if args != [] && !Takes(args[0].key, f) {
      ValueOf(args[1..], f);
      if FirstValue(args, f).Some? {
        var k :| 0 <= k < |args[1..]| && args[1..][k].value == FirstValue(args[1..], f).value;
        assert args[k + 1].value == FirstValue(args, f).value;
      }
    }
  }

  method AddArgs(args: seq<Arg>, buf: array<char>) returns (text: string)
    requires |Entries(args)| < buf.Length
    modifies buf
    ensures text == Entries(args)
  {
    var w := new Writer(buf);
    var k := 0;
    while k < |args|
      invariant k <= |args| && w.buf == buf && fresh(w)
      invariant w.Valid() && w.at + w.left == buf.Length
      invariant w.Text() == Entries(args[..k])
    {
      EntriesStep(args, k);
      EntriesGrows(args, k + 1);
      var status := w.AddStringArg(args[k].key, args[k].value);
      k := k + 1;
    }
    assert args[..k] == args;
    return buf[..w.at];
  }
}
