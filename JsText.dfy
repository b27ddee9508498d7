/** The JavaScript text-to-number conversions the handlers rely on, restricted
    to integers: `parseInt(s)` reads a decimal prefix, `Number(s)` insists that
    the whole (trimmed) text is a number and reads blank text as 0.
    `parseFloat` is modelled by `ParseInt`, amounts being whole numbers here. */
module JsText {
  import opened Common

  predicate IsDigit(c: char) { '0' <= c <= '9' }

  /** ECMAScript's WhiteSpace and LineTerminator characters, the ones `trim`,
      `Number` and `parseInt` skip: tab, vertical tab, form feed, space,
      no-break space, the byte order mark, the other Unicode space
      separators, line feed, carriage return and the line and paragraph
      separators. */
  predicate IsSpace(c: char)
  {
    || c == '\t' || c == '\U{000B}' || c == '\U{000C}' || c == ' ' || c == '\U{00A0}' || c == '\U{FEFF}'
    || c == '\U{1680}' || '\U{2000}' <= c <= '\U{200A}' || c == '\U{202F}' || c == '\U{205F}' || c == '\U{3000}'
    || c == '\n' || c == '\r' || c == '\U{2028}' || c == '\U{2029}'
  }

  predicate AllDigits(s: string) { forall i :: 0 <= i < |s| ==> IsDigit(s[i]) }

  predicate AllSpaces(s: string) { forall i :: 0 <= i < |s| ==> IsSpace(s[i]) }

  /** `s` without its leading white space. */
  function TrimStart(s: string): (r: string)
    ensures |r| <= |s| && r == s[|s| - |r|..]
    ensures forall i :: 0 <= i < |s| - |r| ==> IsSpace(s[i])
    ensures r == "" || !IsSpace(r[0])
  {
    if s != [] && IsSpace(s[0]) then TrimStart(s[1..]) else s
  }

  /** `s` without its trailing white space. */
  function TrimEnd(s: string): (r: string)
    ensures |r| <= |s| && r == s[..|r|]
    ensures AllSpaces(s[|r|..])
    ensures r == "" || !IsSpace(r[|r| - 1])
  {
    if s != [] && IsSpace(s[|s| - 1]) then
      var r := TrimEnd(s[..|s| - 1]);
      assert s[|r|..] == s[..|s| - 1][|r|..] + [s[|s| - 1]];
      r
    else s
  }

  /** `String.prototype.trim`. */
  function Trim(s: string): string
  {
    TrimEnd(TrimStart(s))
  }

  /** The value of a run of decimal digits, most significant first. */
  function DigitsValue(s: string): nat
    requires AllDigits(s)
  {
    if s == [] then 0 else 10 * DigitsValue(s[..|s| - 1]) + (s[|s| - 1] as int - '0' as int)
  }

  /** The length of the run of digits that starts `s`. */
  function LeadingDigits(s: string): (k: nat)
    ensures k <= |s| && AllDigits(s[..k])
    ensures k < |s| ==> !IsDigit(s[k])
  {
    if s != [] && IsDigit(s[0]) then
      var k := LeadingDigits(s[1..]);
      assert s[..k + 1] == [s[0]] + s[1..][..k];
      k + 1
    else 0
  }

  /** An optional leading sign, as both conversions accept it. */
  function SplitSign(s: string): (r: (int, string))
    ensures r.0 == 1 || r.0 == -1
    ensures |r.1| <= |s| && r.1 == s[|s| - |r.1|..]
  {
    if s != [] && s[0] == '-' then (-1, s[1..])
    else if s != [] && s[0] == '+' then (1, s[1..])
    else (1, s)
  }

  /** JavaScript `parseInt(s, 10)`: skip leading white space, read an optional
      sign and the longest run of digits after it; no digit at all is NaN (None). */
  function ParseInt(s: string): Option<int>
  {
    var (sign, rest) := SplitSign(TrimStart(s));
    var k := LeadingDigits(rest);
    if k == 0 then None else Some(sign * DigitsValue(rest[..k]))
  }

  /** White space in front of the text changes nothing `parseInt` reads:
      `parseInt("\u00a010")` is 10. */
  lemma {:induction false} ParseIntSkipsSpace(w: string, s: string)
    requires AllSpaces(w)
    ensures ParseInt(w + s) == ParseInt(s)
  {
    TrimStartSkipsSpace(w, s);
  }

  lemma {:induction false} TrimStartSkipsSpace(w: string, s: string)
    requires AllSpaces(w)
    ensures TrimStart(w + s) == TrimStart(s)
    decreases |w|
  {
    if w != [] {
      var ws := w + s;
      assert ws[0] == w[0];
      assert ws[1..] == w[1..] + s;
      assert TrimStart(ws) == TrimStart(ws[1..]);
      TailAllSpaces(w);
      TrimStartSkipsSpace(w[1..], s);
    } else {
      assert w + s == s;
    }
  }

  lemma TailAllSpaces(w: string)
    requires w != [] && AllSpaces(w)
    ensures AllSpaces(w[1..])
  {
    assert forall i :: 0 <= i < |w| - 1 ==> w[1..][i] == w[i + 1];
  }

  /** JavaScript `Number(s)` for a string: blank text is 0; otherwise the trimmed
      text must be an optional sign and digits and nothing else, or it is NaN (None). */
  function ToNumber(s: string): Option<int>
  {
    var t := Trim(s);
    if t == "" then Some(0)
    else
      var (sign, rest) := SplitSign(t);
      if rest != "" && AllDigits(rest) then Some(sign * DigitsValue(rest)) else None
  }

  /** `parseInt(x)` for a query value destructured with a numeric default:
      the default itself when the key is absent. */
  function IntParam(query: Fields, key: string, dflt: int): (r: Option<int>)
    ensures key !in query ==> r == Some(dflt)
    ensures key in query ==> r == ParseInt(query[key])
  {
    if key in query then ParseInt(query[key]) else Some(dflt)
  }

  /** The number arithmetic reads from a query value destructured with a
      numeric default (`count / limit` converts text with `Number`). */
  function NumParam(query: Fields, key: string, dflt: int): (r: Option<int>)
    ensures key !in query ==> r == Some(dflt)
    ensures key in query ==> r == ToNumber(query[key])
  {
    if key in query then ToNumber(query[key]) else Some(dflt)
  }

  /** The upper case of one character: the ASCII letters, the long s and
      the dotless i, whose upper cases are the ASCII `S` and `I`. */
  function UpperChar(c: char): char
  {
    if 'a' <= c <= 'z' then (c as int - 32) as char
    else if c == '\U{017F}' then 'S'
    else if c == '\U{0131}' then 'I'
    else c
  }

  /** `String.prototype.toUpperCase`, character by character. */
  function ToUpper(s: string): (r: string)
    ensures |r| == |s|
    ensures forall i :: 0 <= i < |s| ==> r[i] == UpperChar(s[i])
  {
    if s == [] then []
    else [UpperChar(s[0])] + ToUpper(s[1..])
  }

  /** The texts whose upper case is "ASC" and "DESC": each letter in either
      case, and the long s for `s`. */
  lemma {:induction false} UpperIsSortOrder(s: string)
    ensures ToUpper(s) == "ASC" <==>
              |s| == 3 && s[0] in {'A', 'a'} && s[1] in {'S', 's', '\U{017F}'} && s[2] in {'C', 'c'}
    ensures ToUpper(s) == "DESC" <==>
              |s| == 4 && s[0] in {'D', 'd'} && s[1] in {'E', 'e'} && s[2] in {'S', 's', '\U{017F}'} && s[3] in {'C', 'c'}
  {
    var r := ToUpper(s);
    if |s| == 3 {
      assert r == "ASC" <==> r[0] == 'A' && r[1] == 'S' && r[2] == 'C';
    }
    if |s| == 4 {
      assert r == "DESC" <==> r[0] == 'D' && r[1] == 'E' && r[2] == 'S' && r[3] == 'C';
    }
  }

  /** The decimal text of a natural number, as template literals render it. */
  function NatText(n: nat): (r: string)
    ensures r != "" && AllDigits(r)
  {
    if n < 10 then [('0' as int + n) as char]
    else NatText(n / 10) + [('0' as int + n % 10) as char]
  }

  lemma {:induction false} NatTextValue(n: nat)
    ensures DigitsValue(NatText(n)) == n
  {
    if n >= 10 {
      NatTextValue(n / 10);
      var s := NatText(n);
      assert s[..|s| - 1] == NatText(n / 10);
    }
  }

  lemma LeadingDigitsOfRun(d: string, tail: string)
    requires AllDigits(d)
    requires tail == "" || !IsDigit(tail[0])
    ensures LeadingDigits(d + tail) == |d|
    decreases |d|
  {
    if d != [] {
      assert (d + tail)[1..] == d[1..] + tail;
      LeadingDigitsOfRun(d[1..], tail);
    } else {
      assert d + tail == tail;
    }
  }

  /** Text of digits passes through both trims untouched and carries no sign. */
  lemma DigitsAreTrimmed(s: string)
    requires s != "" && AllDigits(s)
    ensures TrimStart(s) == s && Trim(s) == s && SplitSign(s) == (1, s)
  {
    assert !IsSpace(s[0]) && !IsSpace(s[|s| - 1]);
  }

  /** A number rendered by a template literal reads back unchanged through
      both `parseInt` and `Number`. */
  lemma NatTextRoundTrip(n: nat)
    ensures ParseInt(NatText(n)) == Some(n)
    ensures ToNumber(NatText(n)) == Some(n)
  {
    var s := NatText(n);
    NatTextValue(n);
    DigitsAreTrimmed(s);
    LeadingDigitsOfRun(s, "");
    assert s + "" == s;
    assert s[..|s|] == s;
  }

  lemma SignOfPrefix(u: string, tail: string)
    requires u != ""
    ensures SplitSign(u + tail).0 == SplitSign(u).0
    ensures SplitSign(u + tail).1 == SplitSign(u).1 + tail
  {
    assert (u + tail)[0] == u[0];
    assert (u + tail)[1..] == u[1..] + tail;
  }

  /** Whatever `Number` reads from non-blank text, `parseInt` reads too: the two
      conversions disagree only on blank text (Number gives 0, parseInt NaN) and
      on text that Number rejects. */
  lemma NumberAgreesWithParseInt(s: string, n: int)
    requires ToNumber(s) == Some(n)
    requires Trim(s) != ""
    ensures ParseInt(s) == Some(n)
  {
    var t := TrimStart(s);
    var u := TrimEnd(t);
    var tail := TrailingSpaces(t);
    var sign := SplitSign(u).0;
    var digits := SplitSign(u).1;
    assert digits != "" && AllDigits(digits) && n == sign * DigitsValue(digits);
    DigitsBeforeSpaces(u, tail);
  }

  /** What TrimEnd cuts off: the text is the trimmed text followed by it,
      and it starts with white space when it is not empty. */
  lemma TrailingSpaces(t: string) returns (tail: string)
    ensures t == TrimEnd(t) + tail
    ensures tail == "" || IsSpace(tail[0])
  {
    var u := TrimEnd(t);
    tail := t[|u|..];
    assert tail == "" || tail[0] == t[|u|];
  }

  /** A signed run of digits followed by white space reads, under
      `parseInt`, as the digits alone. */
  lemma DigitsBeforeSpaces(u: string, tail: string)
    requires u != "" && SplitSign(u).1 != "" && AllDigits(SplitSign(u).1)
    requires tail == "" || IsSpace(tail[0])
    ensures var (sign, rest) := SplitSign(u + tail);
            var k := LeadingDigits(rest);
            && sign == SplitSign(u).0
            && k == |SplitSign(u).1| && rest[..k] == SplitSign(u).1
  {
    var digits := SplitSign(u).1;
    SignOfPrefix(u, tail);
    LeadingDigitsOfRun(digits, tail);
    assert (digits + tail)[..|digits|] == digits;
  }

  /** Blank text: `parseInt` reads NaN where `Number` reads 0. */
  lemma BlankText(s: string)
    requires Trim(s) == ""
    ensures ParseInt(s).None?
    ensures ToNumber(s) == Some(0)
  {
  }

  /** The decimal text of an integer, with a minus sign when negative. */
  function IntText(n: int): (r: string)
    ensures r != ""
  {
    if n < 0 then "-" + NatText(-n) else NatText(n)
  }

  /** Text that neither starts nor ends with white space is its own trim. */
  lemma UntrimmedText(s: string)
    requires s != "" && !IsSpace(s[0]) && !IsSpace(s[|s| - 1])
    ensures TrimStart(s) == s && Trim(s) == s
  {
  }

  /** An integer rendered as text reads back unchanged through `Number`. */
  lemma IntTextRoundTrip(n: int)
    ensures ToNumber(IntText(n)) == Some(n)
  {
    if n < 0 {
      var d := NatText(-n);
      var s := "-" + d;
      NatTextValue(-n);
      assert s[0] == '-' && s[1..] == d && s[|s| - 1] == d[|d| - 1];
      UntrimmedText(s);
      assert SplitSign(s) == (-1, d);
    } else {
      NatTextRoundTrip(n);
    }
  }
}
