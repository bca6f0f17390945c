/**
 The operations of Go's `strings` package that the RTSP stack calls.

 A Go string is a sequence of bytes; here every `char` stands for one byte. `TrimSpace` works on
 the UTF-8 encodings of Unicode white space, as the library does.
 */
module GoStrings {

  // ---------------------------------------------------------------------------
  // Substrings
  // ---------------------------------------------------------------------------

  predicate OccursAt(s: string, sub: string, i: int) {
    0 <= i <= |s| - |sub| && s[i..i + |sub|] == sub
  }

  /** strings.Contains. */
  predicate Contains(s: string, sub: string) {
    exists i | 0 <= i <= |s| - |sub| :: OccursAt(s, sub, i)
  }

  predicate HasPrefix(s: string, prefix: string) {
    |prefix| <= |s| && s[..|prefix|] == prefix
  }

  lemma ContainsWithin(s: string, part: string, o: nat, sub: string)
    requires o + |part| <= |s| && s[o..o + |part|] == part
    requires Contains(part, sub)
    ensures Contains(s, sub)
  {
    var i :| 0 <= i <= |part| - |sub| && OccursAt(part, sub, i);
    assert forall j :: 0 <= j < |sub| ==> sub[j] == part[i..i + |sub|][j] == part[i + j];
    assert forall k :: 0 <= k < |part| ==> part[k] == s[o..o + |part|][k] == s[o + k];
    assert s[o + i..o + i + |sub|] == sub;
    assert OccursAt(s, sub, o + i);
  }

  /** A keyword without the character `c` that occurs in `a + [c] + b` occurs in `a` or in `b`. */
  lemma ContainsAcross(a: string, c: char, b: string, sub: string)
    requires c !in sub && sub != ""
    ensures Contains(a + [c] + b, sub) <==> Contains(a, sub) || Contains(b, sub)
  {
    var s := a + [c] + b;
    if Contains(s, sub) {
      var i :| 0 <= i <= |s| - |sub| && OccursAt(s, sub, i);
      assert forall k :: i <= k < i + |sub| ==> s[k] == s[i..i + |sub|][k - i] == sub[k - i];
      assert s[|a|] == c;
      if |a| < i {
        assert s[|a| + 1..] == b;
        SliceOfTail(s, |a| + 1, i - |a| - 1, |sub|);
        assert OccursAt(b, sub, i - |a| - 1);
      } else {
        assert a[i..i + |sub|] == s[i..i + |sub|];
        assert OccursAt(a, sub, i);
      }
    }
    if Contains(a, sub) {
      assert s[0..0 + |a|] == a;
      ContainsWithin(s, a, 0, sub);
    }
    if Contains(b, sub) {
      assert s[|a| + 1..|a| + 1 + |b|] == b;
      ContainsWithin(s, b, |a| + 1, sub);
    }
  }

  lemma TooShortToContain(s: string, sub: string)
    requires |s| < |sub|
    ensures !Contains(s, sub)
  {
  }

  /** A string contains whatever characters its substrings are made of. */
  lemma ContainsChars(s: string, sub: string)
    requires Contains(s, sub)
    ensures forall c :: c in sub ==> c in s
  {
    var i :| 0 <= i <= |s| - |sub| && OccursAt(s, sub, i);
    forall c | c in sub ensures c in s {
      var j :| 0 <= j < |sub| && sub[j] == c;
      assert s[i + j] == s[i..i + |sub|][j];
    }
  }

  /** strings.Index for a one-character needle: the first position of `c`, or -1. */
  function IndexOf(s: string, c: char): (i: int)
    ensures -1 <= i < |s|
    ensures 0 <= i ==> s[i] == c && c !in s[..i]
    ensures i == -1 <==> c !in s
  {
    if s == "" then -1
    else if s[0] == c then 0
    else
      var i := IndexOf(s[1..], c);
      assert s == [s[0]] + s[1..];
      assert 0 <= i ==> s[..i + 1] == [s[0]] + s[1..][..i];
      if i == -1 then -1 else i + 1
  }

  lemma IndexOfFirst(a: string, c: char, b: string)
    requires c !in a
    ensures IndexOf(a + [c] + b, c) == |a|
  {
    var s := a + [c] + b;
    var i := IndexOf(s, c);
    assert s[|a|] == c;
    assert forall k :: 0 <= k < |a| ==> s[k] == a[k];
    assert forall k :: 0 <= k < i ==> s[..i][k] == s[k];
  }

  // ---------------------------------------------------------------------------
  // Split and Join
  // ---------------------------------------------------------------------------

  /** strings.Split with a one-character separator. */
  function Split(s: string, c: char): (parts: seq<string>)
    ensures |parts| >= 1
  {
    if s == "" then [""]
    else if s[0] == c then [""] + Split(s[1..], c)
    else
      var rest := Split(s[1..], c);
      [[s[0]] + rest[0]] + rest[1..]
  }

  /** strings.Join with a one-character separator. */
  function Join(parts: seq<string>, c: char): string {
    if parts == [] then ""
    else if |parts| == 1 then parts[0]
    else parts[0] + [c] + Join(parts[1..], c)
  }

  lemma JoinHead(d: char, rest: seq<string>, c: char)
    requires rest != []
    ensures Join([[d] + rest[0]] + rest[1..], c) == [d] + Join(rest, c)
  {
    var parts := [[d] + rest[0]] + rest[1..];
    if |rest| > 1 {
      assert parts[1..] == rest[1..];
    }
  }

  /** No part holds the separator, and joining the parts gives the text back. */
  lemma {:induction false} SplitSound(s: string, c: char)
    ensures forall p :: p in Split(s, c) ==> c !in p
    ensures Join(Split(s, c), c) == s
  {
    if s != "" {
      SplitSound(s[1..], c);
      var rest := Split(s[1..], c);
      if s[0] == c {
        assert ([""] + rest)[1..] == rest;
      } else {
        JoinHead(s[0], rest, c);
      }
      assert s == [s[0]] + s[1..];
    }
  }

  lemma {:induction false} SplitNone(a: string, c: char)
    requires c !in a
    ensures Split(a, c) == [a]
  {
    if a != "" {
      SplitNone(a[1..], c);
      assert a == [a[0]] + a[1..];
    }
  }

  lemma {:induction false} SplitCons(a: string, c: char, b: string)
    requires c !in a
    ensures Split(a + [c] + b, c) == [a] + Split(b, c)
  {
    var s := a + [c] + b;
    if a == "" {
      assert s[1..] == b;
    } else {
      assert s[1..] == a[1..] + [c] + b;
      SplitCons(a[1..], c, b);
      assert a == [a[0]] + a[1..];
    }
  }

  /** Splitting undoes joining, for parts that do not hold the separator. */
  lemma {:induction false} SplitJoin(parts: seq<string>, c: char)
    requires parts != []
    requires forall p :: p in parts ==> c !in p
    ensures Split(Join(parts, c), c) == parts
  {
    if |parts| == 1 {
      SplitNone(parts[0], c);
    } else {
      SplitJoin(parts[1..], c);
      SplitCons(parts[0], c, Join(parts[1..], c));
    }
  }

  lemma SliceOfTail(s: string, k: nat, i: nat, n: nat)
    requires k + i + n <= |s|
    ensures s[k..][i..i + n] == s[k + i..k + i + n]
  {
    var (a, b) := (s[k..][i..i + n], s[k + i..k + i + n]);
    assert forall j :: 0 <= j < n ==> a[j] == s[k..][i + j] == s[k + i + j] == b[j];
  }

  /** Every part of a split is a stretch of the text. */
  lemma {:induction false} SplitWithin(s: string, c: char, k: nat) returns (o: nat)
    requires k < |Split(s, c)|
    ensures o + |Split(s, c)[k]| <= |s| && s[o..o + |Split(s, c)[k]|] == Split(s, c)[k]
    ensures k == 0 ==> o == 0
  {
    if s == "" {
      o := 0;
    } else {
      var rest := Split(s[1..], c);
      if k == 0 {
        o := 0;
        if s[0] != c {
          var p := SplitWithin(s[1..], c, 0);
          assert s[..1 + |rest[0]|] == [s[0]] + s[1..][..|rest[0]|];
        }
      } else {
        var p := SplitWithin(s[1..], c, if s[0] == c then k - 1 else k);
        o := p + 1;
        var part := Split(s, c)[k];
        SliceOfTail(s, 1, p, |part|);
      }
    }
  }

  lemma PartContains(s: string, c: char, k: nat, sub: string)
    requires k < |Split(s, c)| && Contains(Split(s, c)[k], sub)
    ensures Contains(s, sub)
  {
    var o := SplitWithin(s, c, k);
    ContainsWithin(s, Split(s, c)[k], o, sub);
  }

  lemma PartChars(s: string, c: char, k: nat)
    requires k < |Split(s, c)|
    ensures forall d :: d in Split(s, c)[k] ==> d in s && d != c
  {
    var o := SplitWithin(s, c, k);
    SplitSound(s, c);
    forall d | d in Split(s, c)[k] ensures d in s && d != c {
      var j :| 0 <= j < |Split(s, c)[k]| && Split(s, c)[k][j] == d;
      assert s[o + j] == s[o..o + |Split(s, c)[k]|][j];
    }
  }

  // ---------------------------------------------------------------------------
  // Lines ended by CR LF
  // ---------------------------------------------------------------------------

  const CRLF: string := "\r\n"

  predicate NoCRLF(s: string) {
    forall i :: 0 <= i < |s| - 1 ==> !(s[i] == '\r' && s[i + 1] == '\n')
  }

  /** strings.Split with the separator CR LF. */
  function SplitCRLF(s: string): (parts: seq<string>)
    ensures |parts| >= 1
  {
    if s == "" then [""]
    else if |s| >= 2 && s[0] == '\r' && s[1] == '\n' then [""] + SplitCRLF(s[2..])
    else
      var rest := SplitCRLF(s[1..]);
      [[s[0]] + rest[0]] + rest[1..]
  }

  lemma {:induction false} SplitCRLFSound(s: string)
    ensures forall p :: p in SplitCRLF(s) ==> NoCRLF(p)
    ensures SplitCRLF(s)[0] <= s
  {
    if s == "" {
    } else if |s| >= 2 && s[0] == '\r' && s[1] == '\n' {
      SplitCRLFSound(s[2..]);
    } else {
      SplitCRLFSound(s[1..]);
      var rest := SplitCRLF(s[1..]);
      var first := [s[0]] + rest[0];
      assert s == [s[0]] + s[1..];
      assert NoCRLF(rest[0]);
      forall i | 0 <= i < |first| - 1 ensures !(first[i] == '\r' && first[i + 1] == '\n') {
        if i == 0 {
          assert first[1] == rest[0][0] == s[1..][0];
        } else {
          assert first[i] == rest[0][i - 1] && first[i + 1] == rest[0][i];
        }
      }
    }
  }

  lemma {:induction false} SplitOneLine(a: string)
    requires NoCRLF(a)
    ensures SplitCRLF(a) == [a]
  {
    if a != "" {
      assert NoCRLF(a[1..]) by {
        assert forall i :: 0 <= i < |a[1..]| ==> a[1..][i] == a[i + 1];
      }
      SplitOneLine(a[1..]);
      assert a == [a[0]] + a[1..];
    }
  }

  lemma {:induction false} SplitCRLFCons(a: string, b: string)
    requires NoCRLF(a)
    ensures SplitCRLF(a + CRLF + b) == [a] + SplitCRLF(b)
  {
    var s := a + CRLF + b;
    if a == "" {
      assert s[2..] == b;
    } else {
      assert s[1..] == a[1..] + CRLF + b;
      SplitCRLFCons(a[1..], b);
      assert a == [a[0]] + a[1..];
      if |a| >= 2 {
        assert s[1] == a[1];
      } else {
        assert s[1] == '\r';
      }
    }
  }

  /** The text made of the given lines, each ended by CR LF. */
  function Unlines(lines: seq<string>): string {
    if lines == [] then "" else lines[0] + CRLF + Unlines(lines[1..])
  }

  lemma {:induction false} UnlinesAppend(a: seq<string>, b: seq<string>)
    ensures Unlines(a + b) == Unlines(a) + Unlines(b)
  {
    if a == [] {
      assert a + b == b;
    } else {
      UnlinesAppend(a[1..], b);
      assert (a + b)[1..] == a[1..] + b;
    }
  }

  lemma {:induction false} SplitUnlines(lines: seq<string>)
    requires forall l :: l in lines ==> NoCRLF(l)
    ensures SplitCRLF(Unlines(lines)) == lines + [""]
  {
    if lines != [] {
      SplitUnlines(lines[1..]);
      SplitCRLFCons(lines[0], Unlines(lines[1..]));
    }
  }

  lemma NoCRLFAcross(a: string, c: char, b: string)
    requires NoCRLF(a) && NoCRLF(b) && c != '\r' && c != '\n'
    ensures NoCRLF(a + [c] + b)
  {
    var s := a + [c] + b;
    forall i | 0 <= i < |s| - 1 ensures !(s[i] == '\r' && s[i + 1] == '\n') {
      if i + 1 < |a| {
        assert s[i] == a[i] && s[i + 1] == a[i + 1];
      } else if i > |a| {
        assert s[i] == b[i - |a| - 1] && s[i + 1] == b[i - |a|];
      }
    }
  }

  lemma NoCRLFWithin(s: string, part: string, o: nat)
    requires NoCRLF(s)
    requires o + |part| <= |s| && s[o..o + |part|] == part
    ensures NoCRLF(part)
  {
    forall i | 0 <= i < |part| - 1 ensures !(part[i] == '\r' && part[i + 1] == '\n') {
      assert part[i] == s[o + i] && part[i + 1] == s[o + i + 1];
    }
  }

  lemma PartsNoCRLF(s: string, c: char)
    requires NoCRLF(s)
    ensures forall k :: 0 <= k < |Split(s, c)| ==> NoCRLF(Split(s, c)[k])
  {
    forall k | 0 <= k < |Split(s, c)| ensures NoCRLF(Split(s, c)[k]) {
      var o := SplitWithin(s, c, k);
      NoCRLFWithin(s, Split(s, c)[k], o);
    }
  }

  // ---------------------------------------------------------------------------
  // TrimSpace
  // ---------------------------------------------------------------------------

  predicate IsAsciiSpace(c: char) {
    c == ' ' || 9 <= c as int <= 13
  }

  /** The two-byte encodings of U+0085 and U+00A0. */
  predicate IsSpace2(a: char, b: char) {
    a as int == 0xC2 && (b as int == 0x85 || b as int == 0xA0)
  }

  /** The three-byte encodings of the other white space characters of Unicode. */
  predicate IsSpace3(a: char, b: char, c: char) {
    var (x, y, z) := (a as int, b as int, c as int);
    || (x == 0xE1 && y == 0x9A && z == 0x80)
    || (x == 0xE2 && y == 0x80 && (0x80 <= z <= 0x8A || z == 0xA8 || z == 0xA9 || z == 0xAF))
    || (x == 0xE2 && y == 0x81 && z == 0x9F)
    || (x == 0xE3 && y == 0x80 && z == 0x80)
  }

  /** The number of bytes of a white space character at the front of `s`, or 0. */
  function SpaceAtFront(s: string): (n: nat)
    ensures n <= |s|
  {
    if |s| >= 1 && IsAsciiSpace(s[0]) then 1
    else if |s| >= 2 && IsSpace2(s[0], s[1]) then 2
    else if |s| >= 3 && IsSpace3(s[0], s[1], s[2]) then 3
    else 0
  }

  /** The number of bytes of a white space character at the back of `s`, or 0. */
  function SpaceAtBack(s: string): (n: nat)
    ensures n <= |s|
  {
    var k := |s|;
    if k >= 1 && IsAsciiSpace(s[k - 1]) then 1
    else if k >= 2 && IsSpace2(s[k - 2], s[k - 1]) then 2
    else if k >= 3 && IsSpace3(s[k - 3], s[k - 2], s[k - 1]) then 3
    else 0
  }

  function TrimLeft(s: string): (t: string)
    ensures SpaceAtFront(t) == 0
    ensures |t| <= |s| && s[|s| - |t|..] == t
    ensures SpaceAtFront(s) == 0 ==> t == s
    decreases |s|
  {
    var n := SpaceAtFront(s);
    if n == 0 then s
    else
      var t := TrimLeft(s[n..]);
      assert s[|s| - |t|..] == s[n..][|s| - n - |t|..];
      t
  }

  function TrimRight(s: string): (t: string)
    ensures SpaceAtBack(t) == 0
    ensures t <= s
    ensures SpaceAtBack(s) == 0 ==> t == s
    decreases |s|
  {
    var n := SpaceAtBack(s);
    if n == 0 then s
    else
      var t := TrimRight(s[..|s| - n]);
      t
  }

  /** strings.TrimSpace. */
  function TrimSpace(s: string): string {
    TrimRight(TrimLeft(s))
  }

  /** Nothing to trim at either end. */
  predicate Trimmed(s: string) {
    SpaceAtFront(s) == 0 && SpaceAtBack(s) == 0
  }

  lemma TrimSpaceSound(s: string) returns (o: nat)
    ensures Trimmed(TrimSpace(s))
    ensures Trimmed(s) ==> TrimSpace(s) == s
    ensures o + |TrimSpace(s)| <= |s| && s[o..o + |TrimSpace(s)|] == TrimSpace(s)
  {
    hide TrimLeft;
    hide TrimRight;
    var l := TrimLeft(s);
    var t := TrimRight(l);
    assert forall i :: 0 <= i < |t| ==> t[i] == l[i];
    assert SpaceAtFront(t) == 0;
    o := |s| - |l|;
    assert s[o..o + |t|] == l[..|t|];
  }

  lemma TrimSpaceNoFront(s: string)
    requires SpaceAtFront(s) == 0
    ensures TrimSpace(s) == TrimRight(s)
  {
  }

  lemma TrimSpaceFixed(s: string)
    requires Trimmed(s)
    ensures TrimSpace(s) == s
  {
  }

  lemma TrimSpaceOfSpaced(v: string)
    requires Trimmed(v)
    ensures TrimSpace(" " + v) == v
  {
    var s := " " + v;
    assert s[1..] == v;
    assert SpaceAtFront(s) == 1;
    assert TrimLeft(s) == TrimLeft(v) == v;
  }

  /** White space of ASCII: blank, tab, line feed, vertical tab, form feed and carriage return. */
  predicate White(w: string) {
    forall c :: c in w ==> c in {' ', '\t', '\n', 11 as char, 12 as char, '\r'}
  }

  lemma WhiteTail(w: string)
    requires White(w) && w != ""
    ensures White(w[1..]) && White(w[..|w| - 1]) && IsAsciiSpace(w[0]) && IsAsciiSpace(w[|w| - 1])
  {
    assert w[0] in w && w[|w| - 1] in w;
    var front := w[..|w| - 1];
    assert forall c :: c in front ==> c in w;
    assert forall c :: c in w[1..] ==> c in w;
  }

  lemma {:induction false} TrimLeftWhite(w: string, s: string)
    requires White(w)
    ensures TrimLeft(w + s) == TrimLeft(s)
    decreases |w|
  {
    hide White;
    if w == "" {
      assert w + s == s;
    } else {
      WhiteTail(w);
      assert (w + s)[1..] == w[1..] + s;
      assert SpaceAtFront(w + s) == 1;
      TrimLeftWhite(w[1..], s);
    }
  }

  lemma TrimRightOne(s: string, c: char)
    requires IsAsciiSpace(c)
    ensures TrimRight(s + [c]) == TrimRight(s)
  {
    assert (s + [c])[..|s|] == s;
    assert SpaceAtBack(s + [c]) == 1;
    hide SpaceAtBack;
  }

  lemma {:induction false} TrimRightWhite(s: string, w: string)
    requires White(w)
    ensures TrimRight(s + w) == TrimRight(s)
    decreases |w|
  {
    hide White, TrimRight, IsAsciiSpace;
    if w == "" {
      assert s + w == s;
    } else {
      var n := |w| - 1;
      WhiteTail(w);
      TrimRightOne(s + w[..n], w[n]);
      assert s + w == s + w[..n] + [w[n]];
      TrimRightWhite(s, w[..n]);
    }
  }

  lemma NoSpaceBefore(v: string, w: string)
    requires SpaceAtFront(v) == 0 && v != "" && White(w)
    ensures SpaceAtFront(v + w) == 0
  {
    if w != "" { WhiteTail(w); }
    if |w| > 1 { WhiteTail(w[1..]); }
  }

  /** Any white space around a text without any at its ends goes, and nothing else does. */
  lemma TrimWhite(w: string, v: string, u: string)
    requires White(w) && White(u) && Trimmed(v)
    ensures TrimSpace(w + v + u) == v
  {
    hide White, TrimLeft, TrimRight, SpaceAtFront, SpaceAtBack;
    assert w + v + u == w + (v + u);
    TrimLeftWhite(w, v + u);
    if v == "" {
      assert v + u == u + "";
      TrimLeftWhite(u, "");
      assert TrimLeft("") == "" && TrimRight("") == "";
    } else {
      NoSpaceBefore(v, u);
      assert TrimLeft(v + u) == v + u;
      TrimRightWhite(v, u);
    }
  }

  lemma TrimRightStep(s: string)
    ensures TrimRight(s) == if SpaceAtBack(s) == 0 then s else TrimRight(s[..|s| - SpaceAtBack(s)])
  {
  }

  /** White space is trimmed from the tail of `p + [c] + v` only inside `v`, when `c` is plain ASCII. */
  lemma {:induction false} TrimRightTail(p: string, c: char, v: string)
    requires !IsAsciiSpace(c) && c as int < 0x80
    ensures TrimRight(p + [c] + v) == p + [c] + TrimRight(v)
    decreases |v|
  {
    hide TrimRight;
    hide SpaceAtBack;
    var s := p + [c] + v;
    var n := SpaceAtBack(v);
    SpaceAtBackTail(p, c, v);
    TrimRightStep(s);
    TrimRightStep(v);
    if n != 0 {
      assert s[..|s| - n] == p + [c] + v[..|v| - n];
      TrimRightTail(p, c, v[..|v| - n]);
    }
  }

  lemma SpaceAtBackTail(p: string, c: char, v: string)
    requires !IsAsciiSpace(c) && c as int < 0x80
    ensures SpaceAtBack(p + [c] + v) == SpaceAtBack(v)
  {
    var s := p + [c] + v;
    var k := |s|;
    assert s[|p|] == c;
    if |v| >= 1 { assert s[k - 1] == v[|v| - 1]; } else { assert s[k - 1] == c; }
    if |v| >= 2 { assert s[k - 2] == v[|v| - 2]; } else if |v| == 1 { assert s[k - 2] == c; }
    if |v| >= 3 { assert s[k - 3] == v[|v| - 3]; } else if |v| == 2 { assert s[k - 3] == c; }
  }

  lemma SpaceAtBackLast(s: string)
    requires s != "" && !IsAsciiSpace(s[|s| - 1]) && s[|s| - 1] as int < 0x80
    ensures SpaceAtBack(s) == 0 && TrimRight(s) == s
  {
  }

  lemma SpaceAtFrontHead(p: string)
    requires p != "" && !IsAsciiSpace(p[0]) && p[0] as int < 0x80
    ensures SpaceAtFront(p) == 0
  {
  }

  /** Joining the parts from `k` on gives no character that was not in the text. */
  lemma {:induction false} JoinTailAvoids(text: string, c: char, d: char, k: nat)
    requires d !in text && c != d && k < |Split(text, c)|
    ensures d !in Join(Split(text, c)[k..], c)
    decreases |Split(text, c)| - k
  {
    var parts := Split(text, c);
    PartChars(text, c, k);
    if k + 1 < |parts| {
      JoinTailAvoids(text, c, d, k + 1);
      assert parts[k..][1..] == parts[k + 1..];
    }
  }

  // ---------------------------------------------------------------------------
  // Splitting arbitrary text
  // ---------------------------------------------------------------------------

  /** How often `c` occurs in `s`. */
  function Occurrences(s: string, c: char): nat {
    if s == "" then 0 else (if s[0] == c then 1 else 0) + Occurrences(s[1..], c)
  }

  /** There is one piece more than there are separators. */
  lemma {:induction false} PieceCount(s: string, c: char)
    ensures |Split(s, c)| == Occurrences(s, c) + 1
  {
    if s != "" {
      PieceCount(s[1..], c);
    }
  }

  /** What may follow a word: nothing, or a separator and more. */
  predicate Tail(tail: string, c: char) {
    tail == "" || tail[0] == c
  }

  /** Words and a tail split into the words and whatever the tail splits into. */
  lemma {:induction false} SplitWords(words: seq<string>, tail: string, c: char)
    requires words != [] && Tail(tail, c) && forall w :: w in words ==> c !in w
    ensures words <= Split(Join(words, c) + tail, c)
    ensures tail == "" ==> Split(Join(words, c) + tail, c) == words
  {
    if tail == "" {
      assert Join(words, c) + tail == Join(words, c);
      SplitJoin(words, c);
    } else if |words| == 1 {
      assert tail == [c] + tail[1..];
      assert words[0] + tail == words[0] + [c] + tail[1..];
      SplitCons(words[0], c, tail[1..]);
    } else {
      var rest := Join(words[1..], c) + tail;
      assert Join(words, c) + tail == words[0] + [c] + rest;
      SplitCons(words[0], c, rest);
      SplitWords(words[1..], tail, c);
      assert words == [words[0]] + words[1..];
    }
  }

  lemma {:induction false} SplitAppend(a: string, c: char, b: string)
    ensures Split(a + [c] + b, c) == Split(a, c) + Split(b, c)
  {
    var s := a + [c] + b;
    if a == "" {
      assert s[1..] == b;
    } else {
      assert s[1..] == a[1..] + [c] + b;
      SplitAppend(a[1..], c, b);
    }
  }
}
