/** user/grep.c: reading the input through a fixed buffer and printing the lines that match. */
module GrepLines {
  import opened Basics
  import opened Grep

  const BUFSIZE: nat := 1024

  // ------------------------------------------------- lines

  /** strchr(s, newline): the first newline before any NUL, or -1. */
  function First(s: string): (k: int)
    ensures -1 <= k < |s| && (k >= 0 ==> s[k] == '\n')
  {
    if s == "" || s[0] == '\0' then -1
    else if s[0] == '\n' then 0
    else var k := First(s[1..]); if k < 0 then -1 else k + 1
  }

  /** Where the last complete line ends. */
  function End(s: string): (n: nat)
    ensures n <= |s|
    decreases |s|
  {
    if First(s) < 0 then 0 else First(s) + 1 + End(s[First(s) + 1..])
  }

  /** The complete lines of s that match, newlines included: what grep is to print. */
  ghost function Selected(re: string, s: string): string
    decreases |s|
  {
    if First(s) < 0 then ""
    else (if Found(re, s[..First(s)]) then s[..First(s) + 1] else "") + Selected(re, s[First(s) + 1..])
  }

  lemma {:induction false} FirstOfSum(a: string, b: string)
    ensures First(a) >= 0 ==> First(a + b) == First(a)
    ensures First(a) < 0 && '\0' !in a ==> First(a + b) == if First(b) < 0 then -1 else |a| + First(b)
  {
    if a == "" {
      assert a + b == b;
    } else {
      assert (a + b)[1..] == a[1..] + b;
      FirstOfSum(a[1..], b);
    }
  }

  lemma SumSlices(a: string, b: string, k: nat)
    requires k < |a|
    ensures (a + b)[k + 1..] == a[k + 1..] + b && (a + b)[..k] == a[..k] && (a + b)[..k + 1] == a[..k + 1]
  { }

  lemma SumAssoc(a: string, b: string, c: string)
    ensures (a + b) + c == a + (b + c)
  { }

  lemma LineStep(re: string, s: string)
    ensures First(s) < 0 ==> Selected(re, s) == "" && End(s) == 0
    ensures First(s) >= 0 ==>
      && End(s) == First(s) + 1 + End(s[First(s) + 1..])
      && Selected(re, s) == (if Found(re, s[..First(s)]) then s[..First(s) + 1] else "") +
         Selected(re, s[First(s) + 1..])
  {
    hide Found, First;
  }

  lemma {:induction false} EndOfSum(a: string, b: string)
    requires End(a) == |a|
    ensures End(a + b) == |a| + End(b)
    decreases |a|
  {
    hide First;
    if a == "" {
      assert a + b == b;
      NoLine(a);
    } else {
      var k := First(a);
      FirstOfSum(a, b);
      SumSlices(a, b, k);
      EndOfSum(a[k + 1..], b);
    }
  }

  /** Complete lines put before a text are done on their own. */
  lemma {:induction false} CompleteFirst(re: string, a: string, b: string)
    requires End(a) == |a|
    ensures Selected(re, a + b) == Selected(re, a) + Selected(re, b) && End(a + b) == |a| + End(b)
    decreases |a|
  {
    hide Found, First, Selected, End;
    EndOfSum(a, b);
    LineStep(re, a);
    LineStep(re, a + b);
    if a == "" {
      assert a + b == b;
    } else {
      var k := First(a);
      FirstOfSum(a, b);
      SumSlices(a, b, k);
      var rest := a[k + 1..];
      CompleteFirst(re, rest, b);
      var line := if Found(re, a[..k]) then a[..k + 1] else "";
      SumAssoc(line, Selected(re, rest), Selected(re, b));
    }
  }

  lemma {:induction false} CompletePart(re: string, s: string)
    ensures End(s[..End(s)]) == End(s) && Selected(re, s[..End(s)]) == Selected(re, s)
    decreases |s|
  {
    hide Found, First, End, Selected;
    var k, n := First(s), End(s);
    LineStep(re, s);
    LineStep(re, s[..n]);
    NoLine("");
    if k >= 0 {
      CompletePart(re, s[k + 1..]);
      PrefixFirst(s, n);
      assert s[..n][k + 1..] == s[k + 1..][..End(s[k + 1..])];
      assert s[..n][..k] == s[..k] && s[..n][..k + 1] == s[..k + 1];
    }
  }

  lemma NoLine(s: string)
    requires s == ""
    ensures First(s) == -1
  { }

  lemma {:induction false} PrefixFirst(s: string, n: nat)
    requires First(s) < n <= |s|
    ensures First(s[..n]) == First(s)
  {
    if s != "" && s[0] != '\0' && s[0] != '\n' {
      if First(s) >= 0 {
        PrefixFirst(s[1..], n - 1);
        assert s[..n][1..] == s[1..][..n - 1];
      } else if n > 0 {
        PrefixFirst(s[1..], n - 1);
        assert s[..n][1..] == s[1..][..n - 1];
      }
    }
  }

  // ------------------------------------------------- reading

  /** Bytes the next read() delivers: what it chooses to, at least one, within the space and the input. */
  function Delivered(want: seq<nat>, i: nat, space: nat, left: nat): (n: nat)
    ensures n <= space && n <= left && (space > 0 && left > 0 ==> n > 0)
  {
    var n := Min(space, left);
    if i < |want| && 0 < want[i] then Min(want[i], n) else n
  }

  /** The complete lines grep looks at, given what is in the buffer and what is still to come. */
  function Seen(rest: string, carry: string, want: seq<nat>, i: nat): string
    requires |carry| < BUFSIZE - 1
    decreases |rest|
  {
    if rest == "" then ""
    else
      var n := Delivered(want, i, BUFSIZE - 1 - |carry|, |rest|);
      var b := carry + rest[..n];
      var k := End(b);
      b[..k] + Seen(rest[n..], if k == 0 then "" else b[k..], want, i + 1)
  }

  lemma FirstStep(s: string)
    requires s != ""
    ensures s[0] == '\0' ==> First(s) == -1
    ensures s[0] == '\n' ==> First(s) == 0
    ensures s[0] != '\0' && s[0] != '\n' ==> First(s) == if First(s[1..]) < 0 then -1 else First(s[1..]) + 1
  { }

  method Strchr(buf: array<char>, p: nat, m: nat) returns (q: int)
    requires p <= m < buf.Length && buf[m] == '\0'
    ensures q == if First(buf[p..m]) < 0 then -1 else p + First(buf[p..m])
  {
    hide First;
    ghost var s := buf[p..m];
    var i := p;
    assert s[0..] == s;
    while true
      invariant p <= i <= m && First(s) == if First(s[i - p..]) < 0 then -1 else i - p + First(s[i - p..])
      decreases m - i
    {
      if i < m {
        FirstStep(s[i - p..]);
        assert s[i - p..][1..] == s[i + 1 - p..] && s[i - p..][0] == buf[i];
      } else {
        assert s[i - p..] == "";
        NoLine(s[i - p..]);
      }
      if i < m && buf[i] == '\n' { return i; }
      if buf[i] == '\0' { return -1; }
      i := i + 1;
    }
  }

  /** The inner loop: print the matching lines among buf[..m] and return where the rest starts. */
  method Scan(re: string, buf: array<char>, m: nat) returns (out: string, p: nat)
    requires m < buf.Length && buf[m] == '\0'
    modifies buf
    ensures out == Selected(re, old(buf[..m])) && p == End(old(buf[..m]))
    ensures p <= m && buf[p..m] == old(buf[..m])[p..]
  {
    hide Found, First, Selected, End;
    ghost var b := buf[..m];
    out, p := "", 0;
    assert b[0..] == b;
    while true
      invariant p <= m && buf[m] == '\0' && forall j | p <= j < m :: buf[j] == b[j]
      invariant out + Selected(re, b[p..]) == Selected(re, b) && p + End(b[p..]) == End(b)
      decreases m - p
    {
      SliceIs(buf, p, m, b);
      var q := Strchr(buf, p, m);
      LineStep(re, b[p..]);
      if q < 0 { return; }
      LineSlices(b, p, q);
      SliceIs(buf, p, q, b);
      ghost var rest := Selected(re, b[q + 1..]);
      var line := buf[p..q];
      buf[q] := '\0';
      var found := Match(re, line);
      if found {
        buf[q] := '\n';
        SliceIs(buf, p, q + 1, b);
        SumAssoc(out, b[p..q + 1], rest);
        out := out + buf[p..q + 1];
      }
      p := q + 1;
    }
  }

  lemma SliceIs(buf: array<char>, p: nat, q: nat, b: string)
    requires p <= q <= buf.Length && q <= |b| && forall j | p <= j < q :: buf[j] == b[j]
    ensures buf[p..q] == b[p..q] && (q == |b| ==> b[p..q] == b[p..])
  { }

  lemma LineSlices(b: string, p: nat, q: nat)
    requires p <= q < |b| && b[q] == '\n'
    ensures b[p..][..q - p] == b[p..q] && b[p..][q - p + 1..] == b[q + 1..] && b[p..][..q - p + 1] == b[p..q + 1]
  { }

  /** One read() and what is done with it: matching lines are printed, the rest moves to the front. */
  method Round(re: string, buf: array<char>, m0: nat, chunk: string) returns (out: string, m: nat)
    requires buf.Length == BUFSIZE && m0 + |chunk| < BUFSIZE && chunk != ""
    modifies buf
    ensures var b := old(buf[..m0]) + chunk;
      && out == Selected(re, b) && m < BUFSIZE - 1
      && buf[..m] == if End(b) == 0 then "" else b[End(b)..]
  {
    hide Selected, End;
    ghost var carry := buf[..m0];
    forall j | 0 <= j < |chunk| { buf[m0 + j] := chunk[j]; }
    m := m0 + |chunk|;
    buf[m] := '\0';
    assert buf[..m] == carry + chunk;
    var p;
    out, p := Scan(re, buf, m);
    if p == 0 { m := 0; }
    if m > 0 {
      m := m - p;
      forall j | 0 <= j < m { buf[j] := buf[p + j]; }
    }
  }

  /** grep(): prints the selected lines of what it sees. */
  method GrepFile(re: string, text: string, want: seq<nat>) returns (out: string)
    ensures out == Selected(re, Seen(text, "", want, 0))
  {
    hide Selected, End, Seen;
    var buf := new char[BUFSIZE];
    var m, pos, i := 0, 0, 0;
    out := "";
    assert buf[..0] == "" && text[0..] == text;
    while pos < |text|
      invariant pos <= |text| && m < BUFSIZE - 1
      invariant out + Selected(re, Seen(text[pos..], buf[..m], want, i)) == Selected(re, Seen(text, "", want, 0))
      decreases |text| - pos
    {
      var n := Delivered(want, i, BUFSIZE - m - 1, |text| - pos);
      SeenStep(re, text[pos..], buf[..m], want, i);
      var chunk, more := text[pos..pos + n], "";
      assert text[pos..][..n] == chunk && text[pos..][n..] == text[pos + n..];
      hide Delivered;
      more, m := Round(re, buf, m, chunk);
      SumAssoc(out, more, Selected(re, Seen(text[pos + n..], buf[..m], want, i + 1)));
      out := out + more;
      pos, i := pos + n, i + 1;
    }
    assert text[pos..] == "";
    NothingSeen(re, buf[..m], want, i);
  }

  lemma NothingSeen(re: string, carry: string, want: seq<nat>, i: nat)
    requires |carry| < BUFSIZE - 1
    ensures Selected(re, Seen("", carry, want, i)) == ""
  {
    var s := Seen("", carry, want, i);
    NoLine(s);
    LineStep(re, s);
  }

  lemma SeenStep(re: string, rest: string, carry: string, want: seq<nat>, i: nat)
    requires rest != "" && |carry| < BUFSIZE - 1
    ensures var n := Delivered(want, i, BUFSIZE - |carry| - 1, |rest|);
      var b := carry + rest[..n];
      var next := if End(b) == 0 then "" else b[End(b)..];
      |next| < BUFSIZE - 1
        && Selected(re, Seen(rest, carry, want, i)) == Selected(re, b) +
        Selected(re, Seen(rest[n..], next, want, i + 1))
  {
    hide Selected, End;
    var n := Delivered(want, i, BUFSIZE - 1 - |carry|, |rest|);
    var b := carry + rest[..n];
    CompletePart(re, b);
    CompleteFirst(re, b[..End(b)], Seen(rest[n..], if End(b) == 0 then "" else b[End(b)..], want, i + 1));
  }

  // ------------------------------------------------- when that is the right answer

  /** The last line, when no newline ends it. */
  function Unfinished(s: string): string {
    s[End(s)..]
  }

  /** Every line of s that matches, also the last one. */
  ghost function Matching(re: string, s: string): string {
    Selected(re, s) + (if Unfinished(s) != "" && Found(re, Unfinished(s)) then Unfinished(s) else "")
  }

  /** No read() leaves a buffer without a newline in it while a newline is still to come: such a buffer is
      thrown away. */
  predicate Keeps(rest: string, carry: string, want: seq<nat>, i: nat)
    requires |carry| < BUFSIZE - 1
    decreases |rest|
  {
    rest == "" ||
    var n := Delivered(want, i, BUFSIZE - 1 - |carry|, |rest|);
    var b := carry + rest[..n];
    var k := End(b);
    && (k == 0 ==> First(rest[n..]) < 0)
    && Keeps(rest[n..], if k == 0 then "" else b[k..], want, i + 1)
  }

  /** seen is all the complete lines of s if they are kept, and less otherwise. */
  ghost predicate Exactly(kept: bool, seen: string, s: string) {
    if kept then seen == s[..End(s)] else |seen| < End(s)
  }

  /** One read: the buffer b, and the rest of the input. */
  lemma ReadStep(rest: string, carry: string, want: seq<nat>, i: nat) returns (n: nat, b: string, next: string)
    requires rest != "" && |carry| < BUFSIZE - 1 && First(carry) < 0 && '\0' !in carry && '\0' !in rest
    ensures 0 < n <= |rest| && n == Delivered(want, i, BUFSIZE - 1 - |carry|, |rest|)
    ensures b == carry + rest[..n] && |b| < BUFSIZE && carry + rest == b + rest[n..] && End(b[..End(b)]) == End(b)
    ensures '\0' !in b && '\0' !in next && First(next) < 0 && |next| < BUFSIZE - 1 && '\0' !in rest[n..]
    ensures next == (if End(b) == 0 then "" else b[End(b)..]) && (End(b) == 0 ==> First(b) < 0)
    ensures Seen(rest, carry, want, i) == b[..End(b)] + Seen(rest[n..], next, want, i + 1)
    ensures Keeps(rest, carry, want, i) <==>
      (End(b) == 0 ==> First(rest[n..]) < 0) && Keeps(rest[n..], next, want, i + 1)
  {
    hide First, End, Selected;
    n := Delivered(want, i, BUFSIZE - 1 - |carry|, |rest|);
    b := carry + rest[..n];
    LastPart(b);
    CompletePart("", b);
    NoLine("");
    LineStep("", b);
    next := if End(b) == 0 then "" else b[End(b)..];
    NoNul(carry, rest, n, End(b));
    assert carry + rest == b + rest[n..];
  }

  /** However the input is delivered: the complete lines are all seen exactly if they are kept. */
  lemma {:induction false} KeptExactly(rest: string, carry: string, want: seq<nat>, i: nat)
    requires |carry| < BUFSIZE - 1 && First(carry) < 0 && '\0' !in carry && '\0' !in rest
    ensures Exactly(Keeps(rest, carry, want, i), Seen(rest, carry, want, i), carry + rest)
    decreases |rest|
  {
    hide First, Selected, End, Exactly, Seen, Keeps;
    if rest == "" {
      assert carry + rest == carry;
      NothingKept(carry, want, i);
    } else {
      var n, b, next := ReadStep(rest, carry, want, i);
      KeptExactly(rest[n..], next, want, i + 1);
      KeptRead(b, rest[n..], next, Seen(rest[n..], next, want, i + 1), Keeps(rest[n..], next, want, i + 1));
    }
  }

  lemma NothingKept(carry: string, want: seq<nat>, i: nat)
    requires |carry| < BUFSIZE - 1 && First(carry) < 0
    ensures Exactly(Keeps("", carry, want, i), Seen("", carry, want, i), carry)
  {
    hide First;
  }

  lemma KeptRead(b: string, rest: string, next: string, seen: string, kept: bool)
    requires b != "" && '\0' !in b && End(b[..End(b)]) == End(b) && Exactly(kept, seen, next + rest)
    requires next == (if End(b) == 0 then "" else b[End(b)..]) && (End(b) == 0 ==> First(b) < 0)
    ensures Exactly((End(b) == 0 ==> First(rest) < 0) && kept, b[..End(b)] + seen, b + rest)
  {
    hide First, End;
    if End(b) == 0 {
      EmptySums(b, rest, seen);
      NoneIn(b, rest);
    } else {
      SplitSum(b, End(b), rest);
      EndOfSum(b[..End(b)], b[End(b)..] + rest);
      var s := next + rest;
      assert (b[..End(b)] + s)[..End(b) + End(s)] == b[..End(b)] + s[..End(s)];
    }
  }

  /** Every complete line, newline included, fits the buffer. */
  predicate LinesFit(s: string)
    decreases |s|
  {
    First(s) < 0 || (First(s) + 1 < BUFSIZE && LinesFit(s[First(s) + 1..]))
  }

  lemma {:induction false} FitRest(a: string, b: string)
    requires End(a) == |a| < BUFSIZE
    ensures LinesFit(a + b) <==> LinesFit(b)
    decreases |a|
  {
    if a == "" {
      assert a + b == b;
    } else {
      var k := First(a);
      FirstOfSum(a, b);
      assert (a + b)[k + 1..] == a[k + 1..] + b;
      FitRest(a[k + 1..], b);
    }
  }

  /** No line ends in the first part: it counts for the first line of the second. */
  lemma NoneIn(b: string, rest: string)
    requires First(b) < 0 && '\0' !in b && b != ""
    ensures First(rest) < 0 ==> LinesFit(b + rest) && LinesFit(rest) && End(b + rest) == 0 && End(rest) == 0
    ensures First(rest) >= 0 ==> End(b + rest) == |b| + End(rest) && (|b| >= BUFSIZE - 1 ==> !LinesFit(b + rest))
  {
    FirstOfSum(b, rest);
    hide First;
    if First(rest) >= 0 {
      var s := b + rest;
      assert s[First(s) + 1..] == rest[First(rest) + 1..];
    }
  }

  /** seen is all the complete lines of s if they fit, and less otherwise. */
  ghost predicate Exact(seen: string, s: string) {
    if LinesFit(s) then seen == s[..End(s)] else |seen| < End(s)
  }

  lemma ExactDropped(b: string, rest: string, seen: string)
    requires First(b) < 0 && '\0' !in b && b != "" && (First(rest) >= 0 ==> |b| == BUFSIZE - 1)
    requires Exact(seen, rest)
    ensures Exact(seen, b + rest)
  {
    NoneIn(b, rest);
  }

  lemma ExactKept(a: string, b: string, seen: string)
    requires End(a) == |a| < BUFSIZE && Exact(seen, b)
    ensures Exact(a + seen, a + b)
  {
    hide LinesFit, End, First, Selected, Found;
    EndOfSum(a, b);
    FitRest(a, b);
    assert (a + b)[..|a| + End(b)] == a + b[..End(b)];
  }

  /** Full reads: nothing complete is lost exactly when all lines fit. */
  lemma {:induction false} SeenExactly(rest: string, carry: string, i: nat)
    requires |carry| < BUFSIZE - 1 && First(carry) < 0 && '\0' !in carry && '\0' !in rest
    ensures Exact(Seen(rest, carry, [], i), carry + rest)
    decreases |rest|
  {
    hide First, Selected, LinesFit, End, Exact, Seen;
    if rest == "" {
      assert carry + rest == carry;
      NothingLeft(carry, i);
    } else {
      var n, b, next := FullRead(rest, carry, i);
      SeenExactly(rest[n..], next, i + 1);
      ExactRead(b, rest[n..], next, Seen(rest[n..], next, [], i + 1));
    }
  }

  lemma ExactRead(b: string, rest: string, next: string, seen: string)
    requires b != "" && |b| < BUFSIZE && '\0' !in b && End(b[..End(b)]) == End(b) && Exact(seen, next + rest)
    requires if End(b) == 0 then First(b) < 0 && next == "" && (rest != "" ==> |b| == BUFSIZE - 1)
      else next == b[End(b)..]
    ensures Exact(b[..End(b)] + seen, b + rest)
  {
    hide First, LinesFit, End, Exact;
    if End(b) == 0 {
      EmptySums(b, rest, seen);
      NoLineIn(rest);
      ExactDropped(b, rest, seen);
    } else {
      SplitSum(b, End(b), rest);
      ExactKept(b[..End(b)], b[End(b)..] + rest, seen);
    }
  }

  lemma EmptySums(b: string, rest: string, seen: string)
    ensures "" + rest == rest && b[..0] + seen == seen
  { }

  lemma SplitSum(b: string, k: nat, rest: string)
    requires k <= |b|
    ensures b + rest == b[..k] + (b[k..] + rest)
  { }

  lemma NoLineIn(rest: string)
    ensures First(rest) >= 0 ==> rest != ""
  { }

  lemma NothingLeft(carry: string, i: nat)
    requires |carry| < BUFSIZE - 1 && First(carry) < 0
    ensures Exact(Seen("", carry, [], i), carry)
  {
    hide First;
  }

  /** A read that fills the buffer or reaches the end of the file. */
  lemma FullRead(rest: string, carry: string, i: nat) returns (n: nat, b: string, next: string)
    requires rest != "" && |carry| < BUFSIZE - 1 && First(carry) < 0 && '\0' !in carry && '\0' !in rest
    ensures 0 < n <= |rest| && b != "" && |b| < BUFSIZE && carry + rest == b + rest[n..] && End(b[..End(b)]) == End(b)
    ensures '\0' !in b && '\0' !in next && First(next) < 0 && |next| < BUFSIZE - 1
    ensures Seen(rest, carry, [], i) == b[..End(b)] + Seen(rest[n..], next, [], i + 1)
    ensures if End(b) == 0 then First(b) < 0 && next == "" && (rest[n..] != "" ==> |b| == BUFSIZE - 1)
      else next == b[End(b)..]
  {
    hide First, End, Selected, Seen, Keeps;
    n, b, next := ReadStep(rest, carry, [], i);
    if rest[n..] != "" { assert n == BUFSIZE - 1 - |carry|; }
  }

  lemma NoNul(carry: string, rest: string, n: nat, k: nat)
    requires '\0' !in carry && '\0' !in rest && n <= |rest| && k <= |carry + rest[..n]|
    ensures '\0' !in carry + rest[..n] && '\0' !in (carry + rest[..n])[k..] && '\0' !in rest[n..]
  { }

  lemma {:induction false} LastPart(s: string)
    ensures First(s[End(s)..]) < 0
    decreases |s|
  {
    hide First;
    var k := First(s);
    if k >= 0 {
      LastPart(s[k + 1..]);
      assert s[End(s)..] == s[k + 1..][End(s[k + 1..])..];
    } else {
      assert s[0..] == s;
    }
  }

  /** The empty pattern prints every complete line. */
  lemma {:induction false} AllSelected(s: string)
    ensures Selected("", s) == s[..End(s)]
    decreases |s|
  {
    hide First, Found, Selected, End;
    var k := First(s);
    LineStep("", s);
    if k >= 0 {
      var rest := s[k + 1..];
      AllSelected(rest);
      AllMatch(s[..k]);
      PrefixOfRest(s, k + 1, End(rest));
      assert Selected("", s) == s[..k + 1] + rest[..End(rest)];
    } else {
      assert s[..0] == "";
    }
  }

  lemma PrefixOfRest(s: string, k: nat, n: nat)
    requires k + n <= |s|
    ensures s[..k + n] == s[..k] + s[k..][..n]
  { }

  lemma {:induction false} SeenComplete(rest: string, carry: string, want: seq<nat>, i: nat)
    requires |carry| < BUFSIZE - 1
    ensures var s := Seen(rest, carry, want, i);
      End(s) == |s|
    decreases |rest|
  {
    hide First, Found, Selected;
    if rest != "" {
      var n := Delivered(want, i, BUFSIZE - 1 - |carry|, |rest|);
      var b := carry + rest[..n];
      var k := End(b);
      var carry' := if k == 0 then "" else b[k..];
      CompletePart("", b);
      SeenComplete(rest[n..], carry', want, i + 1);
      hide End;
      EndOfSum(b[..k], Seen(rest[n..], carry', want, i + 1));
    } else {
      NoLine("");
    }
  }

  /** grep prints the complete lines that match, for every pattern, if and only if it never throws away the
      beginning of one of them. */
  lemma CompleteIff(text: string, want: seq<nat>)
    requires '\0' !in text
    ensures (forall re :: Selected(re, Seen(text, "", want, 0)) == Selected(re, text)) <==> Keeps(text, "", want, 0)
    ensures |Seen(text, "", want, 0)| <= End(text)
  {
    hide First, Selected, End, Seen, Keeps;
    var seen := Seen(text, "", want, 0);
    assert "" + text == text;
    NoLine("");
    KeptExactly(text, "", want, 0);
    if Keeps(text, "", want, 0) {
      forall re ensures Selected(re, seen) == Selected(re, text) { CompletePart(re, text); }
    } else {
      SeenComplete(text, "", want, 0);
      AllSelected(seen);
      AllSelected(text);
      assert Selected("", seen) != Selected("", text);
    }
  }

  /** grep prints every line that matches, for every pattern and however read() delivers the text, if and only
      if it never throws away the beginning of a line and the last line ends with a newline. */
  lemma GrepExactIff(text: string, want: seq<nat>)
    requires '\0' !in text
    ensures (forall re :: Selected(re, Seen(text, "", want, 0)) == Matching(re, text))
      <==> Keeps(text, "", want, 0) && End(text) == |text|
  {
    hide First, Selected, End, Seen, Keeps, Found;
    CompleteIff(text, want);
    if End(text) == |text| {
      forall re ensures Matching(re, text) == Selected(re, text) { }
    } else {
      var seen := Seen(text, "", want, 0);
      SeenComplete(text, "", want, 0);
      AllSelected(seen);
      AllSelected(text);
      AllMatch(Unfinished(text));
      assert |Matching("", text)| == |text| > |Selected("", seen)|;
    }
  }

  lemma AllMatch(s: string)
    ensures Found("", s)
  {
    AcceptsNothing(s[0..]);
  }

  /** When every read() fills the buffer or reaches the end, that is when every complete line fits the buffer. */
  lemma FullReadsKeep(text: string)
    requires '\0' !in text
    ensures Keeps(text, "", [], 0) <==> LinesFit(text)
  {
    hide First, LinesFit, End, Seen, Keeps;
    assert "" + text == text;
    NoLine("");
    SeenExactly(text, "", 0);
    KeptExactly(text, "", [], 0);
  }

  /** A text of one line. */
  lemma OneLine(line: string)
    requires '\n' !in line && '\0' !in line
    ensures First(line + "\n") == |line| && End(line + "\n") == |line| + 1
      && (|line| + 1 < BUFSIZE ==> LinesFit(line + "\n"))
  {
    NoBreak(line);
    FirstOfSum(line, "\n");
    NewlineFirst();
    hide First;
    NoLine("");
    assert (line + "\n")[|line| + 1..] == "";
  }

  lemma NewlineFirst()
    ensures First("\n") == 0
  { }

  /** A short line delivered a byte at a time is lost, however short. */
  lemma ShortReadsLose()
    ensures var text, want := "ab" + "\n", [1, 1, 1];
      LinesFit(text) && End(text) == |text| && !Keeps(text, "", want, 0)
  {
    hide First;
    var text, want := "ab" + "\n", [1, 1, 1];
    OneLine("ab");
    OneLine("b");
    NoBreak("a");
    assert "" + text[..1] == "a" && text[1..] == "b" + "\n";
    assert Delivered(want, 0, BUFSIZE - 1, |text|) == 1;
    hide LinesFit;
  }

  /** A last line without a newline is not printed. */
  lemma LastLineLost()
    ensures Matching("ab", "ab") == "ab" && Selected("ab", Seen("ab", "", [], 0)) == ""
  {
    hide First, Found, Seen;
    var text := "ab";
    NoBreak(text);
    LineStep(text, text);
    assert text[0..] == text;
    Literally();
    CompleteIff(text, []);
    NoLine(Seen(text, "", [], 0));
    LineStep("ab", Seen(text, "", [], 0));
  }

  lemma Literally()
    ensures Found("ab", "ab")
  {
    var re := "ab";
    assert re[1..] == "b" && re[1..][1..] == "" && re[2..] == "";
    assert Items("") == [] && Items("b") == [One('b')] && Items(re) == [One('a')] + Items("b");
    AcceptsNothing("");
    AcceptsOne('b', [], "b");
    assert [One('b')] + [] == [One('b')] && "b"[1..] == "";
    AcceptsOne('a', Items("b"), "ab");
    assert "ab"[0..] == "ab";
  }

  lemma {:induction false} NoBreak(s: string)
    requires '\n' !in s
    ensures First(s) < 0
  {
    if s != "" {
      NoBreak(s[1..]);
    }
  }

  /** A line of 1023 letters is such a line: its newline is read after the letters are dropped. */
  lemma LongLineLost()
    ensures var text := seq(BUFSIZE - 1, _ => 'a') + "\n";
      exists re :: Selected(re, Seen(text, "", [], 0)) != Selected(re, text)
  {
    var a := seq(BUFSIZE - 1, _ => 'a');
    var text := a + "\n";
    NoBreak(a);
    FirstOfSum(a, "\n");
    assert First("\n") == 0 && !LinesFit(text);
    FullReadsKeep(text);
    CompleteIff(text, []);
  }
}
