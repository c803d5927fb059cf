/**
 The parts of Go's `strings` package that the client relies on, over sequences of
 characters, with the facts about them that the other modules use.
 */
module Strings {
  import opened Basics

  // ---------- character classes ----------

  /** The characters of Unicode's White_Space property, as `unicode.IsSpace` lists them. */
  predicate IsSpace(c: char) {
    var n := c as int;
    || 9 <= n <= 13 || n == 32 || n == 0x85 || n == 0xA0 || n == 0x1680
    || 0x2000 <= n <= 0x200A || n == 0x2028 || n == 0x2029 || n == 0x202F || n == 0x205F || n == 0x3000
  }

  predicate IsSlash(c: char) {
    c == '/'
  }

  ghost predicate All(s: string, p: char -> bool) {
    forall i :: 0 <= i < |s| ==> p(s[i])
  }

  ghost predicate Free(s: string, p: char -> bool) {
    forall i :: 0 <= i < |s| ==> !p(s[i])
  }

  // ---------- trimming ----------

  function TrimLeft(s: string, cut: char -> bool): string {
    if s != "" && cut(s[0]) then TrimLeft(s[1..], cut) else s
  }

  function TrimRight(s: string, cut: char -> bool): string {
    if s != "" && cut(s[|s| - 1]) then TrimRight(s[..|s| - 1], cut) else s
  }

  function Trim(s: string, cut: char -> bool): string {
    TrimRight(TrimLeft(s, cut), cut)
  }

  function TrimSpace(s: string): string {
    Trim(s, IsSpace)
  }

  /** Neither end of `s` would be trimmed. */
  predicate Trimmed(s: string, cut: char -> bool) {
    s == "" || (!cut(s[0]) && !cut(s[|s| - 1]))
  }

  lemma {:induction false} TrimLeftSuffix(s: string, cut: char -> bool) returns (a: string)
    ensures s == a + TrimLeft(s, cut) && All(a, cut)
    ensures TrimLeft(s, cut) != "" ==> !cut(TrimLeft(s, cut)[0])
  {
    if s != "" && cut(s[0]) {
      var a' := TrimLeftSuffix(s[1..], cut);
      a := [s[0]] + a';
      assert s == [s[0]] + s[1..];
    } else {
      a := "";
    }
  }

  lemma {:induction false} TrimRightPrefix(s: string, cut: char -> bool) returns (b: string)
    ensures s == TrimRight(s, cut) + b && All(b, cut)
    ensures TrimRight(s, cut) != "" ==> !cut(TrimRight(s, cut)[|TrimRight(s, cut)| - 1])
  {
    if s != "" && cut(s[|s| - 1]) {
      var b' := TrimRightPrefix(s[..|s| - 1], cut);
      b := b' + [s[|s| - 1]];
      assert s == s[..|s| - 1] + [s[|s| - 1]];
    } else {
      b := "";
    }
  }

  /** What `Trim` returns: a trimmed middle, with only trimmed characters around it. */
  lemma TrimParts(s: string, cut: char -> bool) returns (a: string, b: string)
    ensures s == a + Trim(s, cut) + b
    ensures All(a, cut) && All(b, cut)
    ensures Trimmed(Trim(s, cut), cut)
  {
    a := TrimLeftSuffix(s, cut);
    b := TrimRightPrefix(TrimLeft(s, cut), cut);
  }

  lemma {:induction false} TrimLeftDrops(a: string, m: string, cut: char -> bool)
    requires All(a, cut) && (m != "" ==> !cut(m[0]))
    ensures TrimLeft(a + m, cut) == m
  {
    if a == "" {
      assert a + m == m;
    } else {
      assert (a + m)[1..] == a[1..] + m;
      TrimLeftDrops(a[1..], m, cut);
    }
  }

  lemma {:induction false} TrimRightDrops(m: string, b: string, cut: char -> bool)
    requires All(b, cut) && (m != "" ==> !cut(m[|m| - 1]))
    ensures TrimRight(m + b, cut) == m
  {
    if b == "" {
      assert m + b == m;
    } else {
      assert (m + b)[..|m + b| - 1] == m + b[..|b| - 1];
      TrimRightDrops(m, b[..|b| - 1], cut);
    }
  }

  /** `Trim` is determined by what it drops: `TrimParts` read backwards. */
  lemma TrimAround(a: string, m: string, b: string, cut: char -> bool)
    requires All(a, cut) && All(b, cut) && Trimmed(m, cut)
    ensures Trim(a + m + b, cut) == m
  {
    if m == "" {
      assert a + m + b == (a + b) + "";
      TrimLeftDrops(a + b, "", cut);
    } else {
      assert a + m + b == a + (m + b);
      TrimLeftDrops(a, m + b, cut);
      TrimRightDrops(m, b, cut);
    }
  }

  lemma TrimOfTrimmed(s: string, cut: char -> bool)
    requires Trimmed(s, cut)
    ensures Trim(s, cut) == s
  {
    TrimAround("", s, "", cut);
    assert "" + s + "" == s;
  }

  lemma TrimIdempotent(s: string, cut: char -> bool)
    ensures Trim(Trim(s, cut), cut) == Trim(s, cut)
  {
    var _, _ := TrimParts(s, cut);
    TrimOfTrimmed(Trim(s, cut), cut);
  }

  /** Trimming on the right never reaches past a character that stays. */
  lemma {:induction false} TrimRightTail(m: string, x: string, cut: char -> bool) returns (y: string)
    requires m != "" && !cut(m[|m| - 1])
    ensures TrimRight(m + x, cut) == m + y && y <= x
  {
    var s := m + x;
    if x != "" && cut(x[|x| - 1]) {
      assert s[..|s| - 1] == m + x[..|x| - 1];
      y := TrimRightTail(m, x[..|x| - 1], cut);
    } else {
      y := x;
    }
  }

  /** Trimming keeps a core with two ends that stay, and at most shortens what follows it. */
  lemma TrimTail(a: string, m: string, x: string, cut: char -> bool) returns (y: string)
    requires All(a, cut) && m != "" && Trimmed(m, cut)
    ensures Trim(a + m + x, cut) == m + y && y <= x
  {
    assert a + m + x == a + (m + x);
    TrimLeftDrops(a, m + x, cut);
    y := TrimRightTail(m, x, cut);
  }

  lemma TrimNotLonger(s: string, cut: char -> bool)
    ensures |Trim(s, cut)| <= |s|
  {
    var _, _ := TrimParts(s, cut);
  }

  lemma TrimKeeps(s: string, cut: char -> bool, p: char -> bool)
    requires Free(s, p)
    ensures Free(Trim(s, cut), p)
  {
    var a, b := TrimParts(s, cut);
    var m := Trim(s, cut);
    forall i | 0 <= i < |m|
      ensures !p(m[i])
    {
      assert s[|a| + i] == m[i];
    }
  }

  // ---------- splitting at one character ----------

  /** `strings.Split` at a single character: never empty. */
  function Split(s: string, sep: char): (r: seq<string>)
    ensures |r| >= 1
    ensures forall i :: 0 <= i < |r| ==> sep !in r[i]
  {
    if s == "" then [""]
    else
      var rest := Split(s[1..], sep);
      if s[0] == sep then [""] + rest else [[s[0]] + rest[0]] + rest[1..]
  }

  function Join(parts: seq<string>, sep: char): string {
    if parts == [] then ""
    else if |parts| == 1 then parts[0]
    else parts[0] + [sep] + Join(parts[1..], sep)
  }

  lemma {:induction false} SplitOne(a: string, sep: char)
    requires sep !in a
    ensures Split(a, sep) == [a]
  {
    if a != "" {
      assert sep !in a[1..];
      SplitOne(a[1..], sep);
      assert [a[0]] + a[1..] == a;
    }
  }

  lemma {:induction false} SplitHead(a: string, rest: string, sep: char)
    requires sep !in a
    ensures Split(a + [sep] + rest, sep) == [a] + Split(rest, sep)
  {
    var s := a + [sep] + rest;
    if a == "" {
      assert s[1..] == rest;
    } else {
      assert s[1..] == a[1..] + [sep] + rest;
      SplitHead(a[1..], rest, sep);
      assert [a[0]] + a[1..] == a;
    }
  }

  /** Joining the pieces gives the text back. */
  lemma {:induction false} JoinSplit(s: string, sep: char)
    ensures Join(Split(s, sep), sep) == s
  {
    if s != "" {
      var rest := Split(s[1..], sep);
      JoinSplit(s[1..], sep);
      assert s == [s[0]] + s[1..];
      if s[0] == sep {
        assert ([""] + rest)[1..] == rest;
      } else if |rest| > 1 {
        assert ([[s[0]] + rest[0]] + rest[1..])[1..] == rest[1..];
      }
    }
  }

  lemma {:induction false} SplitPiecesKeep(s: string, sep: char, p: char -> bool)
    requires Free(s, p)
    ensures forall i :: 0 <= i < |Split(s, sep)| ==> Free(Split(s, sep)[i], p)
  {
    if s != "" {
      SplitPiecesKeep(s[1..], sep, p);
    }
  }

  // ---------- splitting at a separator text ----------

  /** `strings.SplitN(s, sep, 2)`: `None` when `sep` does not occur, else the text on both sides of its first occurrence. */
  function Cut(s: string, sep: string): (r: Option<(string, string)>)
    ensures r.Some? ==> s == r.value.0 + sep + r.value.1
  {
    if sep <= s then Some(("", s[|sep|..]))
    else if s == "" then None
    else
      match Cut(s[1..], sep)
      case None => None
      case Some((a, b)) =>
        assert s == [s[0]] + s[1..];
        Some(([s[0]] + a, b))
  }

  lemma {:induction false} CutAtFirst(a: string, sep: string, b: string)
    requires sep != "" && sep[0] !in a
    ensures Cut(a + sep + b, sep) == Some((a, b))
  {
    var s := a + sep + b;
    if a == "" {
      assert s == sep + b;
      assert s[|sep|..] == b;
    } else {
      assert s[0] == a[0] && s[1..] == a[1..] + sep + b;
      CutAtFirst(a[1..], sep, b);
      assert s[0] != sep[0];
      assert [a[0]] + a[1..] == a;
    }
  }

  lemma PrefixIn(p: string, s: string, k: nat)
    requires p <= s && k < |p|
    ensures p[k] in s
  {
    assert s[k] == p[k];
  }

  lemma {:induction false} CutAbsent(s: string, sep: string, k: nat)
    requires k < |sep| && sep[k] !in s
    ensures Cut(s, sep) == None
  {
    if sep <= s {
      PrefixIn(sep, s, k);
    } else if s != "" {
      CutAbsent(s[1..], sep, k);
    }
  }

  function TrimPrefix(s: string, p: string): string {
    if p <= s then s[|p|..] else s
  }

  // ---------- fields ----------

  function Word(s: string): string {
    if s == "" || IsSpace(s[0]) then "" else [s[0]] + Word(s[1..])
  }

  /** `strings.Fields`: the maximal runs of non-space characters. */
  function Fields(s: string): seq<string>
    decreases |s|
  {
    if s == "" then []
    else if IsSpace(s[0]) then Fields(s[1..])
    else
      var w := Word(s);
      [w] + if |w| <= |s| then Fields(s[|w|..]) else []
  }

  lemma {:induction false} WordSplits(w: string, rest: string)
    requires Free(w, IsSpace) && (rest != "" ==> IsSpace(rest[0]))
    ensures Word(w + rest) == w
  {
    if w == "" {
      assert w + rest == rest;
    } else {
      assert (w + rest)[1..] == w[1..] + rest;
      WordSplits(w[1..], rest);
    }
  }

  /** One leading word followed by a space is the first field. */
  lemma FieldsHead(w: string, rest: string)
    requires w != "" && Free(w, IsSpace) && (rest != "" ==> IsSpace(rest[0]))
    ensures Fields(w + rest) == [w] + Fields(rest)
  {
    WordSplits(w, rest);
    assert (w + rest)[|w|..] == rest;
  }

  lemma {:induction false} FieldsNonEmpty(s: string, i: nat)
    requires i < |s| && !IsSpace(s[i])
    ensures |Fields(s)| >= 1
    decreases |s|
  {
    if IsSpace(s[0]) {
      FieldsNonEmpty(s[1..], i - 1);
    }
  }

  // ---------- letters ----------

  function LowerChar(c: char): char {
    if 'A' <= c <= 'Z' then c - 'A' + 'a' else c
  }

  function ToLower(s: string): (r: string)
    ensures |r| == |s|
  {
    if s == "" then "" else [LowerChar(s[0])] + ToLower(s[1..])
  }

  /** `strings.EqualFold` against an ASCII word without the letters k and s. */
  predicate EqualFold(s: string, word: string) {
    ToLower(s) == ToLower(word)
  }
}
