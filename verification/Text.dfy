/** The string operations of Go's `strings` package that the cron evaluator uses. */
module Text {

  /** The position of the first `c` in `s`, or `|s|` when there is none. */
  function Index(s: string, c: char): (i: nat)
    ensures i <= |s|
    ensures c !in s[..i]
    ensures i < |s| ==> s[i] == c
    ensures i < |s| <==> c in s
  {
    if s == "" then 0 else if s[0] == c then 0 else 1 + Index(s[1..], c)
  }

  /** `strings.Split` on a one-character separator: never empty, empty pieces kept. */
  function Split(s: string, c: char): (parts: seq<string>)
    ensures |parts| >= 1
    decreases |s|
  {
    var i := Index(s, c);
    if i == |s| then [s] else [s[..i]] + Split(s[i + 1..], c)
  }

  function Join(parts: seq<string>, c: char): string {
    if parts == [] then ""
    else if |parts| == 1 then parts[0]
    else parts[0] + [c] + Join(parts[1..], c)
  }

  function TrimLeft(s: string, drop: char -> bool): string {
    if s != "" && drop(s[0]) then TrimLeft(s[1..], drop) else s
  }

  function TrimRight(s: string, drop: char -> bool): string {
    if s != "" && drop(s[|s| - 1]) then TrimRight(s[..|s| - 1], drop) else s
  }

  /** Drops characters from both ends only; what stands inside stays. */
  function Trim(s: string, drop: char -> bool): string {
    TrimRight(TrimLeft(s, drop), drop)
  }

  /** `unicode.IsSpace`. */
  predicate IsSpace(c: char) {
    '\t' <= c <= '\r' || c == ' ' || c == '\U{0085}' || c == '\U{00A0}' || c == '\U{1680}'
    || '\U{2000}' <= c <= '\U{200A}' || c == '\U{2028}' || c == '\U{2029}'
    || c == '\U{202F}' || c == '\U{205F}' || c == '\U{3000}'
  }

  /** The length of the leading run of non-space characters. */
  function WordLength(s: string): (n: nat)
    ensures n <= |s|
    ensures n < |s| ==> IsSpace(s[n])
    ensures forall i :: 0 <= i < n ==> !IsSpace(s[i])
  {
    if s == "" || IsSpace(s[0]) then 0 else 1 + WordLength(s[1..])
  }

  /** `strings.Fields`: the maximal runs of non-space characters. */
  function Fields(s: string): (words: seq<string>)
    ensures forall w :: w in words ==> w != "" && forall c :: c in w ==> !IsSpace(c)
    decreases |s|
  {
    if s == "" then []
    else if IsSpace(s[0]) then Fields(s[1..])
    else
      var n := WordLength(s);
      [s[..n]] + Fields(s[n..])
  }

  // ---------- How they undo one another ----------

  lemma IndexAfter(x: string, c: char, y: string)
    requires c !in x
    ensures Index(x + [c] + y, c) == |x|
  {
    var s := x + [c] + y;
    var i := Index(s, c);
    assert s[|x|] == c;
    assert i >= |x| by {
      assert forall k :: 0 <= k < |x| ==> s[k] == x[k];
    }
    assert i <= |x| by {
      assert forall k :: 0 <= k < i ==> s[..i][k] == s[k];
    }
  }

  lemma SplitPlain(x: string, c: char)
    requires c !in x
    ensures Split(x, c) == [x]
  {
  }

  lemma SplitCons(x: string, c: char, y: string)
    requires c !in x
    ensures Split(x + [c] + y, c) == [x] + Split(y, c)
  {
    IndexAfter(x, c, y);
    var s := x + [c] + y;
    assert s[..|x|] == x && s[|x| + 1..] == y;
  }

  lemma Reassociate(a: string, b: string, t: string, d: string, e: string)
    ensures (a + b + t) + d + e == a + b + (t + d + e)
  {
  }

  /** Splitting what was joined gives the pieces of the pieces. */
  lemma {:induction false} SplitAppend(x: string, c: char, y: string)
    ensures Split(x + [c] + y, c) == Split(x, c) + Split(y, c)
    decreases |x|
  {
    if c !in x {
      SplitPlain(x, c);
      SplitCons(x, c, y);
    } else {
      var i := Index(x, c);
      var head, tail := x[..i], x[i + 1..];
      assert x == head + [c] + tail;
      SplitAppend(tail, c, y);
      SplitCons(head, c, tail + [c] + y);
      Reassociate(head, [c], tail, [c], y);
    }
  }

  function SplitAll(parts: seq<string>, c: char): seq<string> {
    if parts == [] then [] else Split(parts[0], c) + SplitAll(parts[1..], c)
  }

  lemma {:induction false} SplitJoin(parts: seq<string>, c: char)
    requires parts != []
    ensures Split(Join(parts, c), c) == SplitAll(parts, c)
  {
    if |parts| > 1 {
      SplitAppend(parts[0], c, Join(parts[1..], c));
      SplitJoin(parts[1..], c);
    } else {
      assert parts[1..] == [];
    }
  }

  lemma {:induction false} SplitAllPlain(parts: seq<string>, c: char)
    requires forall i :: 0 <= i < |parts| ==> c !in parts[i]
    ensures SplitAll(parts, c) == parts
  {
    if parts != [] {
      SplitPlain(parts[0], c);
      SplitAllPlain(parts[1..], c);
      assert parts == [parts[0]] + parts[1..];
    }
  }

  lemma {:induction false} SplitAllIn(parts: seq<string>, c: char, x: string)
    ensures x in SplitAll(parts, c) <==> exists i :: 0 <= i < |parts| && x in Split(parts[i], c)
  {
    if parts != [] {
      SplitAllIn(parts[1..], c, x);
      if x in Split(parts[0], c) {
      } else if x in SplitAll(parts[1..], c) {
        var i :| 0 <= i < |parts[1..]| && x in Split(parts[1..][i], c);
        assert parts[i + 1] == parts[1..][i];
      }
      if i :| 0 <= i < |parts| && x in Split(parts[i], c) && i > 0 {
        assert parts[1..][i - 1] == parts[i];
      }
    }
  }

  lemma {:induction false} TrimLeftEmpty(s: string, drop: char -> bool)
    ensures TrimLeft(s, drop) == "" <==> forall c :: c in s ==> drop(c)
    ensures TrimLeft(s, drop) != "" ==> !drop(TrimLeft(s, drop)[0])
  {
    if s != "" && drop(s[0]) {
      TrimLeftEmpty(s[1..], drop);
      assert s == [s[0]] + s[1..];
    } else if s != "" {
      assert s[0] in s;
    }
  }

  lemma {:induction false} TrimRightKeeps(s: string, drop: char -> bool)
    requires s != "" && !drop(s[0])
    ensures TrimRight(s, drop) != ""
    decreases |s|
  {
    if |s| > 1 && drop(s[|s| - 1]) {
      TrimRightKeeps(s[..|s| - 1], drop);
    }
  }

  /** Trimming both ends leaves nothing exactly when every character is droppable. */
  lemma TrimEmpty(s: string, drop: char -> bool)
    ensures Trim(s, drop) == "" <==> forall c :: c in s ==> drop(c)
  {
    TrimLeftEmpty(s, drop);
    if TrimLeft(s, drop) != "" {
      TrimRightKeeps(TrimLeft(s, drop), drop);
    }
  }

  predicate Word(w: string) {
    w != "" && forall c :: c in w ==> !IsSpace(c)
  }

  lemma WordEnd(w: string, s: string)
    requires Word(w)
    requires s != "" ==> IsSpace(s[0])
    ensures WordLength(w + s) == |w|
  {
    assert forall k :: 0 <= k < |w| ==> (w + s)[k] == w[k];
    assert s != "" ==> (w + s)[|w|] == s[0];
  }

  /** Words joined by single spaces come back as those words. */
  lemma {:induction false} FieldsJoin(words: seq<string>)
    requires forall i :: 0 <= i < |words| ==> Word(words[i])
    ensures Fields(Join(words, ' ')) == words
  {
    if words != [] {
      var w := words[0];
      var rest := if |words| == 1 then "" else " " + Join(words[1..], ' ');
      assert Join(words, ' ') == w + rest;
      if |words| > 1 {
        FieldsJoin(words[1..]);
        assert rest[1..] == Join(words[1..], ' ');
        assert Fields(rest) == words[1..];
      } else {
        assert words == [w];
      }
      FieldsTakeWord(w, rest);
    }
  }

  predicate Blank(s: string) {
    forall c :: c in s ==> IsSpace(c)
  }

  /** Words with blanks before each of them and at the end. */
  function Spaced(gaps: seq<string>, words: seq<string>, trail: string): string
    requires |gaps| == |words|
  {
    if words == [] then trail else gaps[0] + (words[0] + Spaced(gaps[1..], words[1..], trail))
  }

  lemma {:induction false} FieldsSkipBlank(gap: string, s: string)
    requires Blank(gap)
    ensures Fields(gap + s) == Fields(s)
    decreases |gap|
  {
    if gap == "" {
      assert gap + s == s;
    } else {
      assert IsSpace(gap[0]);
      assert (gap + s)[0] == gap[0] && (gap + s)[1..] == gap[1..] + s;
      FieldsSkipBlank(gap[1..], s);
    }
  }

  lemma FieldsTakeWord(w: string, s: string)
    requires Word(w) && (s != "" ==> IsSpace(s[0]))
    ensures Fields(w + s) == [w] + Fields(s)
  {
    WordEnd(w, s);
    assert (w + s)[0] == w[0];
    assert (w + s)[..|w|] == w && (w + s)[|w|..] == s;
  }

  /** Any blanks, of any kind and number, separate words and surround them. */
  lemma {:induction false} FieldsSpaced(gaps: seq<string>, words: seq<string>, trail: string)
    requires |gaps| == |words| && Blank(trail)
    requires forall i :: 0 <= i < |words| ==> Word(words[i]) && Blank(gaps[i])
    requires forall i :: 1 <= i < |words| ==> gaps[i] != ""
    ensures Fields(Spaced(gaps, words, trail)) == words
    decreases |words|
  {
    if words == [] {
      FieldsSkipBlank(trail, "");
      assert trail + "" == trail;
    } else {
      var rest := Spaced(gaps[1..], words[1..], trail);
      FieldsSpaced(gaps[1..], words[1..], trail);
      FieldsSkipBlank(gaps[0], words[0] + rest);
      if |words| > 1 {
        assert rest[0] == gaps[1][0] && gaps[1][0] in gaps[1];
      } else {
        assert rest == trail;
        assert trail != "" ==> trail[0] in trail;
      }
      FieldsTakeWord(words[0], rest);
    }
  }
}
