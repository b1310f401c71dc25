/** How Python renders the values the validation stage writes into its status
    file: str() of a bool, repr() of a str, and str() of a list of str. The
    readers below recover the values from that text, so the status file is
    shown to record them without loss. */
module PyText {
  import opened Outcomes

  /** str(b) of a Python bool. */
  function BoolRepr(b: bool): (r: string)
    ensures (r == "True") == b && (r == "False") == !b
  {
    if b then "True" else "False"
  }

  function HexDigit(n: nat): (c: char)
    requires n < 16
  {
    if n < 10 then ('0' as int + n) as char else ('a' as int + n - 10) as char
  }

  /** The value of a lower-case hexadecimal digit, -1 for any other character. */
  function HexValue(c: char): (v: int)
    ensures -1 <= v < 16
  {
    if '0' <= c <= '9' then c as int - '0' as int
    else if 'a' <= c <= 'f' then c as int - 'a' as int + 10
    else -1
  }

  /** The characters repr writes as \xhh: the other ASCII control characters,
      DEL, the Latin-1 controls, no-break space and soft hyphen. */
  predicate HexEscaped(c: char) {
    c as int < 0x20 || (0x7f <= c as int <= 0xa0) || c as int == 0xad
  }

  /** The quote repr puts around s: double quotes only when s holds a single
      quote and no double quote. */
  function QuoteFor(s: string): char {
    if '\'' in s && '"' !in s then '"' else '\''
  }

  /** How repr writes one character inside quotes q. */
  function Escape(c: char, q: char): string {
    if c == q || c == '\\' then ['\\', c]
    else if c == '\t' then "\\t"
    else if c == '\n' then "\\n"
    else if c == '\r' then "\\r"
    else if HexEscaped(c) then ['\\', 'x', HexDigit(c as int / 16), HexDigit(c as int % 16)]
    else [c]
  }

  function EscapeAll(s: string, q: char): string
    decreases |s|
  {
    if s == [] then "" else Escape(s[0], q) + EscapeAll(s[1..], q)
  }

  /** A character repr writes as itself inside quotes q. */
  predicate Verbatim(c: char, q: char) {
    c != q && c != '\\' && c != '\t' && c != '\n' && c != '\r' && !HexEscaped(c)
  }

  predicate SafeChar(c: char) {
    ('a' <= c <= 'z') || ('A' <= c <= 'Z') || ('0' <= c <= '9') || c == '.' || c == '_' || c == '-'
  }

  /** repr(s) of a Python str. */
  function StrRepr(s: string): (r: string)
    ensures |r| >= 2 && r[0] == r[|r| - 1] == QuoteFor(s)
    ensures r[0] == '\'' || r[0] == '"'
  {
    var q := QuoteFor(s);
    [q] + EscapeAll(s, q) + [q]
  }

  function JoinReprs(items: seq<string>): string
    decreases |items|
  {
    if items == [] then ""
    else if |items| == 1 then StrRepr(items[0])
    else StrRepr(items[0]) + ", " + JoinReprs(items[1..])
  }

  /** str(items) of a Python list of str. */
  function ListRepr(items: seq<string>): (r: string)
    ensures |r| >= 2 && r[0] == '[' && r[|r| - 1] == ']'
  {
    "[" + JoinReprs(items) + "]"
  }

  // ---------------------------------------------------------------------------
  // Reading the text back

  function Unescape(e: char): char {
    if e == 't' then '\t' else if e == 'n' then '\n' else if e == 'r' then '\r' else e
  }

  function Cons(c: char, r: Option<(string, string)>): Option<(string, string)> {
    match r
    case None => None
    case Some((s, rest)) => Some(([c] + s, rest))
  }

  /** Reads the inside of a string literal up to its closing quote q: the
      decoded text and what follows the quote. */
  function ReadBody(t: string, q: char): (r: Option<(string, string)>)
    ensures r.Some? ==> |r.value.1| < |t|
    decreases |t|
  {
    if t == [] then None
    else if t[0] == q then Some(("", t[1..]))
    else if t[0] != '\\' then Cons(t[0], ReadBody(t[1..], q))
    else if |t| < 2 then None
    else if t[1] != 'x' then Cons(Unescape(t[1]), ReadBody(t[2..], q))
    else if |t| >= 4 && HexValue(t[2]) >= 0 && HexValue(t[3]) >= 0 then
      Cons((HexValue(t[2]) * 16 + HexValue(t[3])) as char, ReadBody(t[4..], q))
    else None
  }

  /** Reads one string literal from the front of t. */
  function ReadStr(t: string): (r: Option<(string, string)>)
    ensures r.Some? ==> |r.value.1| < |t|
  {
    if t != [] && (t[0] == '\'' || t[0] == '"') then ReadBody(t[1..], t[0]) else None
  }

  /** Reads the literals of a non-empty list, from the first one to the closing bracket. */
  function ReadItems(t: string): Option<seq<string>>
    decreases |t|
  {
    match ReadStr(t)
    case None => None
    case Some((s, rest)) =>
      if rest == "]" then Some([s])
      else if |rest| >= 2 && rest[..2] == ", " then
        match ReadItems(rest[2..])
        case None => None
        case Some(more) => Some([s] + more)
      else None
  }

  /** Reads the text of a list of str. */
  function ReadList(t: string): Option<seq<string>> {
    if t == "[]" then Some([])
    else if |t| >= 1 && t[0] == '[' then ReadItems(t[1..])
    else None
  }

  // ---------------------------------------------------------------------------
  // Round trips

  lemma BoolReprInjective(a: bool, b: bool)
    ensures BoolRepr(a) == BoolRepr(b) <==> a == b
  {
    assert BoolRepr(true)[0] != BoolRepr(false)[0];
  }

  lemma HexRoundTrip(c: char)
    requires HexEscaped(c)
    ensures HexValue(HexDigit(c as int / 16)) == c as int / 16
    ensures HexValue(HexDigit(c as int % 16)) == c as int % 16
    ensures (HexValue(HexDigit(c as int / 16)) * 16 + HexValue(HexDigit(c as int % 16))) as char == c
  {
  }

  /** Reading one escaped character gives that character back. */
  lemma ReadBodyStep(c: char, q: char, tail: string)
    requires q == '\'' || q == '"'
    ensures ReadBody(Escape(c, q) + tail, q) == Cons(c, ReadBody(tail, q))
  {
    var t := Escape(c, q) + tail;
    if c == q || c == '\\' || c == '\t' || c == '\n' || c == '\r' {
      assert t[2..] == tail;
    } else if HexEscaped(c) {
      HexRoundTrip(c);
      assert t[4..] == tail;
    } else {
      assert t[1..] == tail;
    }
  }

  lemma {:induction false} ReadBodyEscaped(s: string, q: char, rest: string)
    requires q == '\'' || q == '"'
    ensures ReadBody(EscapeAll(s, q) + [q] + rest, q) == Some((s, rest))
    decreases |s|
  {
    if s == [] {
      assert EscapeAll(s, q) + [q] + rest == [q] + rest;
    } else {
      var tail := EscapeAll(s[1..], q) + [q] + rest;
      assert EscapeAll(s, q) + [q] + rest == Escape(s[0], q) + tail;
      ReadBodyStep(s[0], q, tail);
      ReadBodyEscaped(s[1..], q, rest);
      assert [s[0]] + s[1..] == s;
    }
  }

  /** Text of verbatim characters is written inside the quotes unchanged. */
  lemma {:induction false} EscapeAllVerbatim(s: string, q: char)
    requires forall i :: 0 <= i < |s| ==> Verbatim(s[i], q)
    ensures EscapeAll(s, q) == s
    decreases |s|
  {
    if s != [] {
      EscapeAllVerbatim(s[1..], q);
      assert [s[0]] + s[1..] == s;
    }
  }

  /** A str of letters, digits, '.', '_' and '-' is written between single
      quotes as it is. */
  lemma StrReprVerbatim(s: string)
    requires forall i :: 0 <= i < |s| ==> SafeChar(s[i])
    ensures StrRepr(s) == "'" + s + "'"
  {
    assert '\'' !in s;
    EscapeAllVerbatim(s, '\'');
  }

  /** A one-element list of such a str is written as ['s']. */
  lemma ListReprSingleVerbatim(s: string)
    requires forall i :: 0 <= i < |s| ==> SafeChar(s[i])
    ensures ListRepr([s]) == "['" + s + "']"
  {
    StrReprVerbatim(s);
    assert JoinReprs([s]) == StrRepr(s);
  }

  /** repr of a str followed by any text reads back as that str and that text. */
  lemma ReadStrRepr(s: string, rest: string)
    ensures ReadStr(StrRepr(s) + rest) == Some((s, rest))
  {
    var q := QuoteFor(s);
    ReadBodyEscaped(s, q, rest);
    assert (StrRepr(s) + rest)[1..] == EscapeAll(s, q) + [q] + rest;
  }

  /** One literal followed by the closing bracket ends the list. */
  lemma ReadLastItem(x: string)
    ensures ReadItems(StrRepr(x) + "]") == Some([x])
  {
    ReadStrRepr(x, "]");
  }

  /** One literal followed by ", " goes on to read the rest of the list. */
  lemma ReadNextItem(x: string, more: string)
    ensures ReadItems(StrRepr(x) + ", " + more)
         == match ReadItems(more) case None => None case Some(xs) => Some([x] + xs)
  {
    var rest := ", " + more;
    assert StrRepr(x) + ", " + more == StrRepr(x) + rest;
    ReadStrRepr(x, rest);
    assert rest != "]" && |rest| >= 2 && rest[..2] == ", " && rest[2..] == more;
  }

  lemma {:induction false} ReadItemsJoined(items: seq<string>)
    requires items != []
    ensures ReadItems(JoinReprs(items) + "]") == Some(items)
    decreases |items|
  {
    if |items| == 1 {
      assert JoinReprs(items) + "]" == StrRepr(items[0]) + "]";
      ReadLastItem(items[0]);
      assert items == [items[0]];
    } else {
      var more := JoinReprs(items[1..]) + "]";
      assert JoinReprs(items) + "]" == StrRepr(items[0]) + ", " + more;
      ReadNextItem(items[0], more);
      ReadItemsJoined(items[1..]);
      assert [items[0]] + items[1..] == items;
    }
  }

  /** The text of a list of str reads back as that list. */
  lemma ReadListRepr(items: seq<string>)
    ensures ReadList(ListRepr(items)) == Some(items)
  {
    if items != [] {
      var t := ListRepr(items);
      ReadItemsJoined(items);
      assert t[1..] == JoinReprs(items) + "]";
      JoinReprsOpensWithQuote(items);
      assert t[1] == JoinReprs(items)[0];
    }
  }

  /** A non-empty list's items text opens with the first item's quote. */
  lemma JoinReprsOpensWithQuote(items: seq<string>)
    requires items != []
    ensures |JoinReprs(items)| > 0 && JoinReprs(items)[0] == QuoteFor(items[0])
  {
    if |items| > 1 {
      var r := StrRepr(items[0]);
      assert JoinReprs(items)[0] == (r + ", " + JoinReprs(items[1..]))[0] == r[0];
    }
  }
}
