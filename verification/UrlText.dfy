/**
 The characters of a URL's text: where its path ends, which characters a printed path may
 hold, and what percent-decoding makes of it (sections 2.1 and 3.3 of RFC 3986, as Go's
 `net/url` follows them).
 */
module UrlText {
  import opened Basics
  import opened Strings

  /** Begins a query or a fragment. */
  predicate IsMark(c: char) {
    c == '?' || c == '#'
  }

  predicate IsControl(c: char) {
    c < ' ' || c as int == 0x7F
  }

  function HexValue(c: char): Option<nat> {
    if '0' <= c <= '9' then Some(c as int - '0' as int)
    else if 'a' <= c <= 'f' then Some(c as int - 'a' as int + 10)
    else if 'A' <= c <= 'F' then Some(c as int - 'A' as int + 10)
    else None
  }

  /** Unreserved characters: letters, digits and four others. */
  predicate IsUnreserved(c: char) {
    'a' <= c <= 'z' || 'A' <= c <= 'Z' || '0' <= c <= '9' || c in "-._~"
  }

  /** What a path may hold without being rewritten when it is printed. */
  predicate IsPathChar(c: char) {
    IsUnreserved(c) || c in "/%:@!$&'()*+,;=[]"
  }

  /** An escape begins the text. */
  predicate EscapeAt(s: string) {
    |s| >= 3 && s[0] == '%' && HexValue(s[1]).Some? && HexValue(s[2]).Some?
  }

  /** Every percent sign begins an escape. */
  ghost predicate EscapesComplete(s: string) {
    forall i :: 0 <= i < |s| && s[i] == '%' ==> EscapeAt(s[i..])
  }

  /** The text up to the first query or fragment. */
  function BeforeMark(s: string): (r: string)
    ensures r <= s
    ensures Free(r, IsMark)
    ensures |r| < |s| ==> IsMark(s[|r|])
  {
    if s == "" || IsMark(s[0]) then "" else [s[0]] + BeforeMark(s[1..])
  }

  function AfterMark(s: string): string {
    s[|BeforeMark(s)|..]
  }

  lemma {:induction false} BeforeMarkOf(head: string, s: string)
    requires Free(head, IsMark)
    ensures BeforeMark(head + s) == head + BeforeMark(s)
  {
    if head == "" {
      assert head + s == s && head + BeforeMark(s) == BeforeMark(s);
    } else {
      assert (head + s)[1..] == head[1..] + s;
      BeforeMarkOf(head[1..], s);
      assert head == [head[0]] + head[1..];
    }
  }

  lemma NoMark(s: string)
    requires Free(s, IsMark)
    ensures BeforeMark(s) == s
  {
    BeforeMarkOf(s, "");
    assert s + "" == s;
  }

  // ---------- decoding ----------

  /** The byte that the escape at the beginning stands for. */
  function EscapedByte(s: string): nat
    requires EscapeAt(s)
  {
    16 * HexValue(s[1]).value + HexValue(s[2]).value
  }

  /** The text begins with j escapes of bytes beyond ASCII. */
  predicate HighEscapes(s: string, j: nat) {
    j == 0 || (EscapeAt(s) && EscapedByte(s) >= 0x80 && HighEscapes(s[3..], j - 1))
  }

  /**
   `path` is what the text decodes to: escapes of ASCII bytes stand for their character, one
   or more escapes of other bytes for a character beyond ASCII, and all else for itself.
   */
  ghost predicate Decodes(s: string, path: string)
    decreases |s|
  {
    if s == "" then path == ""
    else if path == "" then false
    else if s[0] != '%' then path[0] == s[0] && Decodes(s[1..], path[1..])
    else if !EscapeAt(s) then false
    else if EscapedByte(s) < 0x80 then path[0] as int == EscapedByte(s) && Decodes(s[3..], path[1..])
    else path[0] as int >= 0x80 && exists j :: 1 <= j && 3 * j <= |s| && HighEscapes(s, j) && Decodes(s[3 * j..], path[1..])
  }

  lemma {:induction false} DecodesShorter(s: string, path: string)
    requires Decodes(s, path)
    ensures |path| <= |s|
    ensures '%' in s ==> |path| < |s|
    ensures '%' !in s ==> path == s
    decreases |s|
  {
    if s != "" {
      if s[0] != '%' {
        DecodesShorter(s[1..], path[1..]);
        assert s == [s[0]] + s[1..] && path == [path[0]] + path[1..];
      } else if EscapedByte(s) < 0x80 {
        DecodesShorter(s[3..], path[1..]);
      } else {
        var j :| 1 <= j && 3 * j <= |s| && HighEscapes(s, j) && Decodes(s[3 * j..], path[1..]);
        DecodesShorter(s[3 * j..], path[1..]);
      }
    }
  }

  lemma {:induction false} DecodesHead(head: string, s: string, path: string)
    requires '%' !in head && Decodes(head + s, path)
    ensures head <= path && Decodes(s, path[|head|..])
  {
    if head == "" {
      assert head + s == s && path[0..] == path;
    } else {
      assert (head + s)[1..] == head[1..] + s;
      DecodesHead(head[1..], s, path[1..]);
      assert path[1..][|head| - 1..] == path[|head|..];
      assert path == [path[0]] + path[1..];
    }
  }

  /** Nothing but slashes, plain or escaped. */
  predicate SlashSpelled(s: string) {
    || s == ""
    || (s[0] == '/' && SlashSpelled(s[1..]))
    || (EscapeAt(s) && EscapedByte(s) == '/' as int && SlashSpelled(s[3..]))
  }

  lemma {:induction false} DecodesSlashes(s: string, path: string)
    requires Decodes(s, path)
    ensures All(path, IsSlash) <==> SlashSpelled(s)
    decreases |s|
  {
    if s != "" {
      assert path == [path[0]] + path[1..];
      if s[0] != '%' {
        DecodesSlashes(s[1..], path[1..]);
      } else if EscapedByte(s) < 0x80 {
        DecodesSlashes(s[3..], path[1..]);
      }
    }
  }
}
