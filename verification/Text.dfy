/** Text as a sequence of runes, with the byte widths UTF-8 gives them. */
module Text {

  /** unicode.IsSpace, the notion of whitespace behind strings.TrimSpace and strings.Fields. */
  predicate IsSpace(c: char) {
    || '\t' <= c <= '\r'
    || c == ' ' || c == '\U{85}' || c == '\U{A0}' || c == '\U{1680}'
    || '\U{2000}' <= c <= '\U{200A}'
    || c == '\U{2028}' || c == '\U{2029}' || c == '\U{202F}' || c == '\U{205F}' || c == '\U{3000}'
  }

  /** strings.TrimSpace(s) == "" */
  predicate Blank(s: string) {
    forall i :: 0 <= i < |s| ==> IsSpace(s[i])
  }

  /** strings.TrimLeft for whitespace. */
  function TrimLeft(s: string): string {
    if s != "" && IsSpace(s[0]) then TrimLeft(s[1..]) else s
  }

  function TrimRight(s: string): string {
    if s != "" && IsSpace(s[|s| - 1]) then TrimRight(s[..|s| - 1]) else s
  }

  /** strings.TrimSpace */
  function TrimSpace(s: string): string {
    TrimRight(TrimLeft(s))
  }

  lemma {:induction false} TrimLeftAppend(a: string, b: string)
    ensures TrimLeft(a + b) == if Blank(a) then TrimLeft(b) else TrimLeft(a) + b
    ensures TrimLeft(a) == "" <==> Blank(a)
  {
    if a == "" {
      assert a + b == b;
    } else if IsSpace(a[0]) {
      assert (a + b)[1..] == a[1..] + b && a == [a[0]] + a[1..];
      TrimLeftAppend(a[1..], b);
    }
  }

  lemma {:induction false} TrimRightAppend(a: string, b: string)
    ensures TrimRight(a + b) == if Blank(b) then TrimRight(a) else a + TrimRight(b)
    ensures TrimRight(b) == "" <==> Blank(b)
    decreases |b|
  {
    if b == "" {
      assert a + b == a;
    } else if IsSpace(b[|b| - 1]) {
      var rest := b[..|b| - 1];
      assert (a + b)[..|a + b| - 1] == a + rest && b == rest + [b[|b| - 1]];
      TrimRightAppend(a, rest);
    }
  }

  /** How many spaces a text starts with. */
  function Leading(s: string): (n: nat)
    ensures n <= |s| && forall i :: 0 <= i < n ==> IsSpace(s[i])
  {
    if s != "" && IsSpace(s[0]) then 1 + Leading(s[1..]) else 0
  }

  /** How many spaces a text ends with. */
  function Trailing(s: string): (n: nat)
    ensures n <= |s| && forall i :: |s| - n <= i < |s| ==> IsSpace(s[i])
  {
    if s != "" && IsSpace(s[|s| - 1]) then 1 + Trailing(s[..|s| - 1]) else 0
  }

  lemma {:induction false} TrimLeftDrops(s: string)
    ensures TrimLeft(s) == s[Leading(s)..]
  {
    if s == "" || !IsSpace(s[0]) {
    } else {
      TrimLeftDrops(s[1..]);
    }
  }

  lemma {:induction false} TrimRightDrops(s: string)
    ensures TrimRight(s) == s[..|s| - Trailing(s)]
  {
    if s == "" || !IsSpace(s[|s| - 1]) {
    } else {
      TrimRightDrops(s[..|s| - 1]);
    }
  }

  /** Trimming leaves a slice. */
  lemma TrimLeftSuffix(s: string)
    ensures exists k :: 0 <= k <= |s| && TrimLeft(s) == s[k..] && Blank(s[..k])
  {
    TrimLeftDrops(s);
    assert Blank(s[..Leading(s)]);
  }

  lemma TrimRightPrefix(s: string)
    ensures exists k :: 0 <= k <= |s| && TrimRight(s) == s[..k] && Blank(s[k..])
  {
    TrimRightDrops(s);
    assert Blank(s[|s| - Trailing(s)..]);
  }

  function Concat(parts: seq<string>): string {
    if parts == [] then "" else parts[0] + Concat(parts[1..])
  }

  lemma {:induction false} ConcatAppend(a: seq<string>, b: seq<string>)
    ensures Concat(a + b) == Concat(a) + Concat(b)
  {
    if a == [] {
      assert a + b == b;
    } else {
      assert (a + b)[1..] == a[1..] + b;
      ConcatAppend(a[1..], b);
    }
  }

  lemma SliceOfSlice(t: string, a: nat, b: nat, c: nat, d: nat)
    requires a <= b <= |t| && c <= d <= b - a
    ensures t[a..b][c..d] == t[a + c..a + d]
  {
    var l, r := t[a..b][c..d], t[a + c..a + d];
    assert |l| == |r| && forall k :: 0 <= k < |l| ==> l[k] == r[k];
  }

  /** Number of bytes of one rune in UTF-8 (section 3 of RFC 3629). */
  function Width(c: char): (w: nat)
    ensures 1 <= w <= 4
  {
    if c < '\U{80}' then 1 else if c < '\U{800}' then 2 else if c < '\U{10000}' then 3 else 4
  }

  /** Byte length of a text. */
  function ByteLen(t: string): nat {
    if t == "" then 0 else Width(t[0]) + ByteLen(t[1..])
  }

  /** Byte offset at which rune i starts (or the byte length, for i == |t|). */
  function ByteAt(t: string, i: nat): nat
    requires i <= |t|
  {
    ByteLen(t[..i])
  }

  lemma {:induction false} ByteLenAppend(a: string, b: string)
    ensures ByteLen(a + b) == ByteLen(a) + ByteLen(b)
  {
    if a == "" {
      assert a + b == b;
    } else {
      assert (a + b)[1..] == a[1..] + b;
      ByteLenAppend(a[1..], b);
    }
  }

  lemma ByteAtStep(t: string, i: nat)
    requires i < |t|
    ensures ByteAt(t, i + 1) == ByteAt(t, i) + Width(t[i])
  {
    assert t[..i + 1] == t[..i] + [t[i]];
    ByteLenAppend(t[..i], [t[i]]);
    assert ByteLen([t[i]]) == Width(t[i]) + ByteLen([t[i]][1..]);
  }

  /** Distinct rune indices have distinct byte offsets, in the same order. */
  lemma ByteAtMonotone(t: string, i: nat, j: nat)
    requires i < j <= |t|
    ensures ByteAt(t, i) < ByteAt(t, j)
    decreases j - i
  {
    ByteAtStep(t, i);
    if i + 1 < j {
      ByteAtMonotone(t, i + 1, j);
    }
  }

  /** Byte offset b lies on a rune boundary of t. */
  predicate OnBoundary(t: string, b: int) {
    exists i :: 0 <= i <= |t| && ByteAt(t, i) == b
  }

  /** The rune index whose byte offset is b. */
  function RuneAt(t: string, b: int): (i: nat)
    requires OnBoundary(t, b)
    ensures i <= |t| && ByteAt(t, i) == b
  {
    RuneAtUnique(t, b);
    var i :| 0 <= i <= |t| && ByteAt(t, i) == b;
    i
  }

  lemma RuneAtUnique(t: string, b: int)
    ensures forall i, j :: 0 <= i <= |t| && 0 <= j <= |t| && ByteAt(t, i) == b && ByteAt(t, j) == b ==> i == j
  {
    forall i, j | 0 <= i < j <= |t| ensures ByteAt(t, i) != ByteAt(t, j) {
      ByteAtMonotone(t, i, j);
    }
  }

  lemma RuneAtOrder(t: string, b0: int, b1: int)
    requires OnBoundary(t, b0) && OnBoundary(t, b1) && b0 <= b1
    ensures RuneAt(t, b0) <= RuneAt(t, b1)
    ensures b0 < b1 ==> RuneAt(t, b0) < RuneAt(t, b1)
  {
    if RuneAt(t, b1) < RuneAt(t, b0) {
      ByteAtMonotone(t, RuneAt(t, b1), RuneAt(t, b0));
    }
  }

  /** text[b0:b1], a slice by byte offsets that lie on rune boundaries. */
  function ByteSlice(t: string, b0: int, b1: int): string
    requires OnBoundary(t, b0) && OnBoundary(t, b1) && b0 <= b1
  {
    RuneAtOrder(t, b0, b1);
    t[RuneAt(t, b0)..RuneAt(t, b1)]
  }
}
