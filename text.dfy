/** The JavaScript string operations the application relies on: trim, split on a
    one-character separator, join, case mapping, startsWith and includes. */
module Text {

  /** The characters String.prototype.trim removes: ECMAScript WhiteSpace and LineTerminator. */
  predicate IsSpace(c: char) {
    || c == '\t' || c == '\n' || c == '\U{000B}' || c == '\U{000C}' || c == '\r' || c == ' '
    || c == '\U{00A0}' || c == '\U{1680}' || ('\U{2000}' <= c <= '\U{200A}')
    || c == '\U{2028}' || c == '\U{2029}' || c == '\U{202F}' || c == '\U{205F}'
    || c == '\U{3000}' || c == '\U{FEFF}'
  }

  predicate AllSpace(s: string) {
    forall i :: 0 <= i < |s| ==> IsSpace(s[i])
  }

  /** Neither starts nor ends with white space. */
  predicate Trimmed(s: string) {
    s == [] || (!IsSpace(s[0]) && !IsSpace(s[|s| - 1]))
  }

  function TrimStart(s: string): (r: string)
    ensures |r| <= |s| && r == s[|s| - |r|..]
    ensures AllSpace(s[..|s| - |r|])
    ensures r == [] || !IsSpace(r[0])
  {
    if |s| > 0 && IsSpace(s[0]) then
      var r := TrimStart(s[1..]);
      assert s[..|s| - |r|] == [s[0]] + s[1..][..|s| - 1 - |r|];
      r
    else s
  }

  function TrimEnd(s: string): (r: string)
    ensures |r| <= |s| && r == s[..|r|]
    ensures AllSpace(s[|r|..])
    ensures r == [] || !IsSpace(r[|r| - 1])
  {
    if |s| > 0 && IsSpace(s[|s| - 1]) then
      var r := TrimEnd(s[..|s| - 1]);
      assert s[|r|..] == s[..|s| - 1][|r|..] + [s[|s| - 1]];
      r
    else s
  }

  /** String.prototype.trim: the text between the leading and the trailing white space. */
  function Trim(s: string): (r: string)
    ensures Trimmed(r)
    ensures r == [] <==> AllSpace(s)
    ensures Trimmed(s) ==> r == s
    ensures forall c :: c in r ==> c in s
  {
    var t := TrimStart(s);
    var r := TrimEnd(t);
    assert forall c :: c in t ==> c in s;
    assert forall c :: c in r ==> c in t;
    assert r == [] ==> t == [] || AllSpace(t);
    r
  }

  lemma {:induction false} TrimStartSkips(pad: string, x: string)
    requires AllSpace(pad)
    ensures TrimStart(pad + x) == TrimStart(x)
    decreases |pad|
  {
    if pad != [] {
      assert (pad + x)[0] == pad[0] && IsSpace(pad[0]);
      assert (pad + x)[1..] == pad[1..] + x;
      TrimStartSkips(pad[1..], x);
    } else {
      assert pad + x == x;
    }
  }

  /** Trimming a trimmed item that carries leading white space gives the item back. */
  lemma {:induction false} TrimPadded(pad: string, x: string)
    requires AllSpace(pad) && Trimmed(x)
    ensures Trim(pad + x) == x
  {
    TrimStartSkips(pad, x);
  }

  /** Trailing white space does not change what trimming the end keeps. */
  lemma {:induction false} TrimEndSkips(x: string, pad: string)
    requires AllSpace(pad)
    ensures TrimEnd(x + pad) == TrimEnd(x)
    decreases |pad|
  {
    if pad != [] {
      var n := |pad| - 1;
      assert (x + pad)[..|x + pad| - 1] == x + pad[..n];
      assert (x + pad)[|x + pad| - 1] == pad[n];
      TrimEndSkips(x, pad[..n]);
    } else {
      assert x + pad == x;
    }
  }

  /** Trimming a trimmed text wrapped in white space gives the text back. */
  lemma {:induction false} TrimWrapped(pre: string, body: string, post: string)
    requires AllSpace(pre) && AllSpace(post) && Trimmed(body)
    ensures Trim(pre + body + post) == body
  {
    assert pre + body + post == pre + (body + post);
    if body == [] {
      assert pre + body + post == pre + post;
      assert AllSpace(pre + post) by {
        forall i | 0 <= i < |pre + post|
          ensures IsSpace((pre + post)[i])
        {
          if i >= |pre| {
            assert (pre + post)[i] == post[i - |pre|];
          }
        }
      }
    } else {
      TrimStartSkips(pre, body + post);
      assert (body + post)[0] == body[0];
      assert TrimStart(body + post) == body + post;
      TrimEndSkips(body, post);
      assert TrimEnd(body) == body;
    }
  }

  /** String.prototype.split with a one-character separator: the separator-free
      pieces between separators, in order; k separators give k + 1 pieces. */
  function Split(s: string, sep: char): (parts: seq<string>)
    ensures |parts| == Count(s, sep) + 1
    ensures forall i :: 0 <= i < |parts| ==> sep !in parts[i]
    decreases |s|
  {
    if |s| == 0 then [""]
    else
      var rest := Split(s[1..], sep);
      if s[0] == sep then [""] + rest
      else [[s[0]] + rest[0]] + rest[1..]
  }

  /** The number of occurrences of `c` in `s`. */
  function Count(s: string, c: char): nat {
    if |s| == 0 then 0 else (if s[0] == c then 1 else 0) + Count(s[1..], c)
  }

  /** Array.prototype.join: the items with `sep` between consecutive ones; [] gives "". */
  function Join(xs: seq<string>, sep: string): string {
    if |xs| == 0 then ""
    else if |xs| == 1 then xs[0]
    else xs[0] + sep + Join(xs[1..], sep)
  }

  lemma {:induction false} JoinExtendsHead(a: string, xs: seq<string>, sep: string)
    requires |xs| >= 1
    ensures Join([a + xs[0]] + xs[1..], sep) == a + Join(xs, sep)
  {
    var ys := [a + xs[0]] + xs[1..];
    assert ys[1..] == xs[1..];
  }

  /** Joining the pieces of a split with the separator restores the text. */
  lemma {:induction false} JoinSplit(s: string, sep: char)
    ensures Join(Split(s, sep), [sep]) == s
    decreases |s|
  {
    if |s| > 0 {
      var rest := Split(s[1..], sep);
      JoinSplit(s[1..], sep);
      if s[0] == sep {
        assert ([""] + rest)[1..] == rest;
      } else {
        JoinExtendsHead([s[0]], rest, [sep]);
      }
      assert s == [s[0]] + s[1..];
    }
  }

  /** A separator-free prefix becomes the start of the first piece. */
  lemma {:induction false} SplitPrefix(a: string, b: string, sep: char)
    requires sep !in a
    ensures Split(a + b, sep) == [a + Split(b, sep)[0]] + Split(b, sep)[1..]
    decreases |a|
  {
    if a != [] {
      var parts := Split(b, sep);
      assert (a + b)[0] == a[0] != sep;
      assert (a + b)[1..] == a[1..] + b;
      SplitPrefix(a[1..], b, sep);
      var rest := Split(a[1..] + b, sep);
      assert rest[0] == a[1..] + parts[0] && rest[1..] == parts[1..];
      assert Split(a + b, sep) == [[a[0]] + rest[0]] + rest[1..];
      assert [a[0]] + (a[1..] + parts[0]) == a + parts[0];
    } else {
      var parts := Split(b, sep);
      assert a + b == b;
      assert a + parts[0] == parts[0];
      assert parts == [parts[0]] + parts[1..];
    }
  }

  /** Each item of `ys` with `pad` in front of it. */
  function Prefixed(pad: string, ys: seq<string>): (r: seq<string>)
    ensures |r| == |ys|
    ensures forall i :: 0 <= i < |ys| ==> r[i] == pad + ys[i]
  {
    if ys == [] then [] else [pad + ys[0]] + Prefixed(pad, ys[1..])
  }

  /** Splitting items joined with `sep` followed by `pad` gives the items back,
      each but the first led by `pad`. */
  lemma {:induction false} SplitJoin(xs: seq<string>, sep: char, pad: string)
    requires |xs| >= 1
    requires forall i :: 0 <= i < |xs| ==> sep !in xs[i]
    requires sep !in pad
    ensures Split(Join(xs, [sep] + pad), sep) == [xs[0]] + Prefixed(pad, xs[1..])
  {
    var glue := [sep] + pad;
    if |xs| == 1 {
      SplitPrefix(xs[0], "", sep);
      assert xs[0] + "" == xs[0];
    } else {
      var j := Join(xs[1..], glue);
      SplitJoin(xs[1..], sep, pad);
      assert xs[1..][1..] == xs[2..];
      var b := [sep] + (pad + j);
      assert Join(xs, glue) == xs[0] + b;
      SplitPrefix(xs[0], b, sep);
      assert b[1..] == pad + j;
      assert Split(b, sep) == [""] + Split(pad + j, sep);
      SplitPrefix(pad, j, sep);
      assert Split(pad + j, sep) == [pad + xs[1]] + Prefixed(pad, xs[2..]);
      assert Prefixed(pad, xs[1..]) == [pad + xs[1]] + Prefixed(pad, xs[2..]);
      var sb := Split(b, sep);
      assert sb[0] == "" && sb[1..] == Split(pad + j, sep);
      assert xs[0] + sb[0] == xs[0];
      assert Split(xs[0] + b, sep) == [xs[0]] + Prefixed(pad, xs[1..]);
    }
  }

  /** Splitting items joined with the bare separator gives them back. */
  lemma {:induction false} SplitJoinLines(xs: seq<string>, sep: char)
    requires |xs| >= 1
    requires forall i :: 0 <= i < |xs| ==> sep !in xs[i]
    ensures Split(Join(xs, [sep]), sep) == xs
  {
    assert [sep] + "" == [sep];
    SplitJoin(xs, sep, "");
    var tail := Prefixed("", xs[1..]);
    assert forall i :: 0 <= i < |tail| ==> tail[i] == xs[1..][i];
    assert tail == xs[1..];
    assert [xs[0]] + xs[1..] == xs;
  }

  /** Joining a concatenation puts one separator between the two joins. */
  lemma {:induction false} JoinAppend(xs: seq<string>, ys: seq<string>, sep: string)
    requires |xs| >= 1 && |ys| >= 1
    ensures Join(xs + ys, sep) == Join(xs, sep) + sep + Join(ys, sep)
  {
    assert (xs + ys)[0] == xs[0];
    if |xs| == 1 {
      assert (xs + ys)[1..] == ys;
    } else {
      assert (xs + ys)[1..] == xs[1..] + ys;
      JoinAppend(xs[1..], ys, sep);
    }
  }

  /** A joined block that stands as one item of a join reads as its items would. */
  lemma {:induction false} JoinFlatten(a: seq<string>, b: seq<string>, c: seq<string>, sep: string)
    requires |a| >= 1 && |b| >= 1 && |c| >= 1
    ensures Join(a + [Join(b, sep)] + c, sep) == Join(a + b + c, sep)
  {
    var jb := Join(b, sep);
    assert a + [jb] + c == a + ([jb] + c);
    JoinAppend(a, [jb] + c, sep);
    JoinAppend([jb], c, sep);
    assert a + b + c == a + (b + c);
    JoinAppend(a, b + c, sep);
    JoinAppend(b, c, sep);
  }

  /** Every item trimmed (`.map(i => i.trim())`). */
  function MapTrim(xs: seq<string>): (r: seq<string>)
    ensures |r| == |xs|
    ensures forall i :: 0 <= i < |xs| ==> r[i] == Trim(xs[i])
  {
    if xs == [] then [] else [Trim(xs[0])] + MapTrim(xs[1..])
  }

  /** The non-empty items, in order (`.filter(Boolean)` on strings). */
  function DropEmpty(xs: seq<string>): (r: seq<string>)
    ensures |r| <= |xs|
    ensures forall x :: x in r <==> x in xs && x != ""
  {
    if xs == [] then []
    else if xs[0] == "" then DropEmpty(xs[1..])
    else [xs[0]] + DropEmpty(xs[1..])
  }

  /** The filter works item by item: it distributes over concatenation, so the items
      kept stay in their order and keep their multiplicity. */
  lemma {:induction false} DropEmptyConcat(a: seq<string>, b: seq<string>)
    ensures DropEmpty(a + b) == DropEmpty(a) + DropEmpty(b)
  {
    if a == [] {
      assert a + b == b;
    } else {
      assert (a + b)[0] == a[0] && (a + b)[1..] == a[1..] + b;
      DropEmptyConcat(a[1..], b);
    }
  }

  /** `text.split(sep).map(i => i.trim())`: keeps the empty items. */
  function SplitTrim(text: string, sep: char): (r: seq<string>)
    ensures |r| == Count(text, sep) + 1
    ensures forall i :: 0 <= i < |r| ==> Trimmed(r[i]) && sep !in r[i]
  {
    var pieces := Split(text, sep);
    var r := MapTrim(pieces);
    assert forall i :: 0 <= i < |r| ==> Trimmed(r[i]) && sep !in r[i] by {
      forall i | 0 <= i < |r|
        ensures Trimmed(r[i]) && sep !in r[i]
      {
        assert r[i] == Trim(pieces[i]) && sep !in pieces[i];
      }
    }
    r
  }

  /** `text.split(sep).map(i => i.trim()).filter(Boolean)`: trimmed, non-empty items. */
  function SplitTrimNonEmpty(text: string, sep: char): (r: seq<string>)
    ensures forall i :: 0 <= i < |r| ==> r[i] != "" && Trimmed(r[i]) && sep !in r[i]
  {
    var all := SplitTrim(text, sep);
    var r := DropEmpty(all);
    assert forall i :: 0 <= i < |r| ==> r[i] in all;
    r
  }

  lemma {:induction false} DropEmptyKeepsNonEmpty(xs: seq<string>)
    requires forall i :: 0 <= i < |xs| ==> xs[i] != ""
    ensures DropEmpty(xs) == xs
  {
    if xs != [] {
      DropEmptyKeepsNonEmpty(xs[1..]);
    }
  }

  lemma {:induction false} MapTrimPrefixed(pad: string, ys: seq<string>)
    requires AllSpace(pad)
    requires forall i :: 0 <= i < |ys| ==> Trimmed(ys[i])
    ensures MapTrim(Prefixed(pad, ys)) == ys
  {
    if ys != [] {
      TrimPadded(pad, ys[0]);
      MapTrimPrefixed(pad, ys[1..]);
    }
  }

  lemma {:induction false} SplitTrimJoin(xs: seq<string>, sep: char, pad: string)
    requires |xs| >= 1
    requires forall i :: 0 <= i < |xs| ==> Trimmed(xs[i]) && sep !in xs[i]
    requires sep !in pad && AllSpace(pad)
    ensures SplitTrim(Join(xs, [sep] + pad), sep) == xs
  {
    var tail := Prefixed(pad, xs[1..]);
    var parts := Split(Join(xs, [sep] + pad), sep);
    SplitJoin(xs, sep, pad);
    assert parts[0] == xs[0] && parts[1..] == tail;
    MapTrimPrefixed(pad, xs[1..]);
    assert MapTrim(parts) == [Trim(parts[0])] + MapTrim(parts[1..]);
    assert [xs[0]] + xs[1..] == xs;
  }

  /** Round trip of an edit form: trimmed, non-empty, separator-free items joined
      with the separator and white-space padding parse back to themselves. */
  lemma {:induction false} ParseJoinRoundTrip(xs: seq<string>, sep: char, pad: string)
    requires |xs| >= 1
    requires forall i :: 0 <= i < |xs| ==> xs[i] != "" && Trimmed(xs[i]) && sep !in xs[i]
    requires sep !in pad && AllSpace(pad)
    ensures SplitTrimNonEmpty(Join(xs, [sep] + pad), sep) == xs
  {
    SplitTrimJoin(xs, sep, pad);
    DropEmptyKeepsNonEmpty(xs);
  }

  predicate OnlySpaceAndSep(s: string, sep: char) {
    forall i :: 0 <= i < |s| ==> IsSpace(s[i]) || s[i] == sep
  }

  lemma {:induction false} SplitOfBlank(s: string, sep: char)
    requires OnlySpaceAndSep(s, sep)
    ensures forall i :: 0 <= i < |Split(s, sep)| ==> AllSpace(Split(s, sep)[i])
    decreases |s|
  {
    if |s| > 0 {
      SplitOfBlank(s[1..], sep);
    }
  }

  lemma {:induction false} DropEmptyOfBlanks(xs: seq<string>)
    requires forall i :: 0 <= i < |xs| ==> AllSpace(xs[i])
    ensures DropEmpty(MapTrim(xs)) == []
  {
    if xs != [] {
      DropEmptyOfBlanks(xs[1..]);
    }
  }

  /** Text made only of white space and separators parses to no item at all. */
  lemma {:induction false} BlankParsesToNothing(s: string, sep: char)
    requires OnlySpaceAndSep(s, sep)
    ensures SplitTrimNonEmpty(s, sep) == []
  {
    SplitOfBlank(s, sep);
    DropEmptyOfBlanks(Split(s, sep));
  }

  /** String.prototype.startsWith. */
  predicate StartsWith(s: string, prefix: string) {
    |prefix| <= |s| && s[..|prefix|] == prefix
  }

  /** `sub` occurs in `s` starting at index `i`. */
  predicate OccursAt(s: string, sub: string, i: int) {
    0 <= i <= |s| - |sub| && s[i..i + |sub|] == sub
  }

  /** String.prototype.includes. */
  predicate Contains(s: string, sub: string) {
    exists i | 0 <= i <= |s| - |sub| :: OccursAt(s, sub, i)
  }

  /** Lower-case mapping of one character: ASCII and the Latin-1 capitals. */
  function LowerChar(c: char): char {
    if 'A' <= c <= 'Z' || ('\U{00C0}' <= c <= '\U{00DE}' && c != '\U{00D7}') then (c as int + 32) as char else c
  }

  /** Upper-case mapping of one character: ASCII and the Latin-1 small letters. */
  function UpperChar(c: char): char {
    if 'a' <= c <= 'z' || ('\U{00E0}' <= c <= '\U{00FE}' && c != '\U{00F7}') then (c as int - 32) as char else c
  }

  /** String.prototype.toLowerCase, character by character. */
  function ToLower(s: string): (r: string)
    ensures |r| == |s| && forall i :: 0 <= i < |s| ==> r[i] == LowerChar(s[i])
  {
    seq(|s|, i requires 0 <= i < |s| => LowerChar(s[i]))
  }

  /** String.prototype.toUpperCase, character by character. */
  function ToUpper(s: string): (r: string)
    ensures |r| == |s| && forall i :: 0 <= i < |s| ==> r[i] == UpperChar(s[i])
  {
    seq(|s|, i requires 0 <= i < |s| => UpperChar(s[i]))
  }

  /** A case-insensitive search finds every verbatim occurrence. */
  lemma {:induction false} ContainsIgnoringCase(s: string, sub: string)
    requires Contains(s, sub)
    ensures Contains(ToLower(s), ToLower(sub))
  {
    var i :| 0 <= i <= |s| - |sub| && OccursAt(s, sub, i);
    var ls, lsub := ToLower(s), ToLower(sub);
    assert forall k :: 0 <= k < |sub| ==> ls[i + k] == LowerChar(s[i + k]) == LowerChar(sub[k]) == lsub[k];
    assert ls[i..i + |sub|] == lsub;
    assert OccursAt(ls, lsub, i);
  }

  /** Whatever contains `big` contains every piece of it. */
  lemma {:induction false} ContainsPiece(s: string, big: string, small: string, offset: int)
    requires Contains(s, big) && OccursAt(big, small, offset)
    ensures Contains(s, small)
  {
    var i :| 0 <= i <= |s| - |big| && OccursAt(s, big, i);
    assert forall k :: 0 <= k < |small| ==> s[i + offset + k] == big[offset + k] == small[k];
    assert s[i + offset..i + offset + |small|] == small;
    assert OccursAt(s, small, i + offset);
  }

  /** A text contains no other text of its own length, and none longer. */
  lemma {:induction false} NotContained(s: string, sub: string)
    requires |sub| > |s| || (|sub| == |s| && sub != s)
    ensures !Contains(s, sub)
  {
    if |sub| == |s| {
      assert s[0..|sub|] == s;
      assert !OccursAt(s, sub, 0);
    }
  }

  /** The character of the decimal digit `d`. */
  function Digit(d: nat): (c: char)
    requires d < 10
    ensures '0' <= c <= '9'
  {
    (('0' as int) + d) as char
  }

  /** The decimal digits of `n`, as Number.prototype.toString writes them. */
  function NatToString(n: nat): (r: string)
    ensures r != [] && forall i :: 0 <= i < |r| ==> '0' <= r[i] <= '9'
  {
    if n < 10 then [Digit(n)] else NatToString(n / 10) + [Digit(n % 10)]
  }

  /** The number a run of decimal digits denotes. */
  function DigitsValue(s: string): int {
    if s == [] then 0 else 10 * DigitsValue(s[..|s| - 1]) + ((s[|s| - 1] as int) - ('0' as int))
  }

  /** NatToString writes `n` itself, with no leading zero. */
  lemma {:induction false} NatToStringValue(n: nat)
    ensures DigitsValue(NatToString(n)) == n
    ensures |NatToString(n)| > 1 ==> NatToString(n)[0] != '0'
    ensures n > 0 ==> NatToString(n)[0] != '0'
  {
    var r := NatToString(n);
    if n >= 10 {
      NatToStringValue(n / 10);
      var head := NatToString(n / 10);
      assert r[..|r| - 1] == head && r[0] == head[0];
    }
  }
}
