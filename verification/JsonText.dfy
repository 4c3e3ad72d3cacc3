/** A reader for JSON strings (section 7 of RFC 8259), with every escape sequence. */
module JsonText {
  import opened Wrappers

  /** Characters that may stand in a JSON string as themselves. */
  predicate Unescaped(c: char) {
    c >= ' ' && c != '\"' && c != '\\'
  }

  /** Texts that need no escaping. */
  predicate Clean(s: string) {
    forall i :: 0 <= i < |s| ==> Unescaped(s[i])
  }

  // ---------- Escape sequences ----------

  predicate IsHex(c: char) {
    '0' <= c <= '9' || 'a' <= c <= 'f' || 'A' <= c <= 'F'
  }

  function HexDigit(c: char): (d: nat)
    requires IsHex(c)
    ensures d < 16 && ("0123456789abcdef"[d] == c || "0123456789ABCDEF"[d] == c)
  {
    if c <= '9' then c as int - '0' as int
    else if c <= 'F' then c as int - 'A' as int + 10
    else c as int - 'a' as int + 10
  }

  /** Whether `s` holds \uXXXX at position i. */
  predicate HexAt(s: string, i: nat) {
    && i + 6 <= |s| && s[i] == '\\' && s[i+1] == 'u'
    && IsHex(s[i+2]) && IsHex(s[i+3]) && IsHex(s[i+4]) && IsHex(s[i+5])
  }

  function CodeAt(s: string, i: nat): (n: nat)
    requires HexAt(s, i)
    ensures n < 0x10000
  {
    4096 * HexDigit(s[i+2]) + 256 * HexDigit(s[i+3]) + 16 * HexDigit(s[i+4]) + HexDigit(s[i+5])
  }

  /** The character of a surrogate pair. */
  function Paired(high: nat, low: nat): char
    requires 0xD800 <= high < 0xDC00 && 0xDC00 <= low < 0xE000
  {
    (0x10000 + 1024 * (high - 0xD800) + (low - 0xDC00)) as char
  }

  /** \uXXXX, or a surrogate pair of two; a surrogate alone denotes nothing. */
  function HexUnit(s: string): (r: Option<(char, nat)>)
    ensures r.Some? ==> HexAt(s, 0) && (r.value.1 == 6 || (r.value.1 == 12 && HexAt(s, 6)))
  {
    if !HexAt(s, 0) then None
    else
      var n := CodeAt(s, 0);
      if n < 0xD800 || 0xE000 <= n then Some((n as char, 6))
      else if 0xDC00 <= n || !HexAt(s, 6) then None
      else
        var m := CodeAt(s, 6);
        if 0xDC00 <= m < 0xE000 then Some((Paired(n, m), 12)) else None
  }

  lemma {:induction false} NoQuoteAt(s: string, i: nat)
    requires HexAt(s, i)
    ensures forall k :: i <= k < i + 6 ==> s[k] != '\"'
  {
  }

  lemma {:induction false} NoQuoteInHex(s: string)
    requires HexUnit(s).Some?
    ensures forall k :: 0 <= k < HexUnit(s).value.1 ==> s[k] != '\"'
  {
    NoQuoteAt(s, 0);
    if HexUnit(s).value.1 == 12 {
      NoQuoteAt(s, 6);
    }
  }

  function Short(c: char): Option<char> {
    if c == '\"' || c == '\\' || c == '/' then Some(c)
    else if c == 'b' then Some(8 as char)
    else if c == 'f' then Some(12 as char)
    else if c == 'n' then Some('\n')
    else if c == 'r' then Some('\r')
    else if c == 't' then Some('\t')
    else None
  }

  /** The first character that `s` denotes inside a JSON string, and how many characters of `s`
      denote it. */
  function Unit(s: string): (r: Option<(char, nat)>)
    ensures r.Some? ==> 1 <= r.value.1 <= |s|
    ensures r.Some? && s[0] != '\\' ==> r.value == (s[0], 1) && Unescaped(s[0])
    ensures r.Some? && s[0] == '\\' ==> r.value.1 >= 2
    ensures r.Some? ==> forall i :: 0 <= i < r.value.1 && s[i] == '\"' ==> i == 1 && r.value.1 == 2
  {
    if s == "" then None
    else if s[0] != '\\' then (if Unescaped(s[0]) then Some((s[0], 1)) else None)
    else if |s| == 1 then None
    else if s[1] == 'u' then
      var r := HexUnit(s);
      if r.Some? then NoQuoteInHex(s); r else None
    else
      match Short(s[1])
      case None => None
      case Some(c) => Some((c, 2))
  }

  // ---------- Strings ----------

  /** Reads up to and including the closing quote. */
  function ReadName(s: string): (r: Option<(string, string)>)
    ensures r.Some? ==> |r.value.0| + |r.value.1| < |s|
    decreases |s|
  {
    if s != "" && s[0] == '\"' then Some(("", s[1..]))
    else
      match Unit(s)
      case None => None
      case Some((c, n)) =>
        match ReadName(s[n..])
        case None => None
        case Some((name, rest)) => Some(([c] + name, rest))
  }

  lemma {:induction false} ReadNameOf(key: string, rest: string)
    requires Clean(key)
    ensures ReadName(key + "\"" + rest) == Some((key, rest))
  {
    var s := key + "\"" + rest;
    if key == "" {
      assert s[1..] == rest;
    } else {
      assert s[1..] == key[1..] + "\"" + rest;
      ReadNameOf(key[1..], rest);
      assert [key[0]] + key[1..] == key;
    }
  }

  /** Without a quote there is no end. */
  lemma {:induction false} NoEnd(s: string)
    requires Clean(s)
    ensures ReadName(s).None?
  {
    if s == "" {
    } else {
      NoEnd(s[1..]);
    }
  }

  /** What may follow a name that is not read as it stands: no end of the name any more, or an end
      right behind a comma. */
  predicate EndsElsewhere(t: string) {
    match ReadName(t)
    case None => true
    case Some((name, _)) => name != "" && name[|name|-1] == ','
  }

  /** `name` is shorter than `key`, or ends in a comma where `key` ends in a backslash. */
  predicate Differs(key: string, name: string)
    requires key != ""
  {
    |name| < |key| || (key[|key|-1] == '\\' && name != "" && name[|name|-1] == ',')
  }

  lemma {:induction false} DropUnit(key: string, t: string, n: nat)
    requires n <= |key|
    ensures (key + "\"" + t)[n..] == key[n..] + "\"" + t
  {
  }

  lemma {:induction false} DiffersCons(key: string, n: nat, c: char, name: string)
    requires 1 <= n < |key| && Differs(key[n..], name)
    ensures Differs(key, [c] + name)
  {
    assert key[n..][|key[n..]|-1] == key[|key|-1];
  }

  /** A unit inside the key: the rest of the key decides. */
  lemma {:induction false} NameOfRest(key: string, t: string, n: nat, c: char)
    requires key != "" && key[0] != '\"' && n <= |key| && Unit(key + "\"" + t) == Some((c, n))
    ensures ReadName(key + "\"" + t)
         == match ReadName(key[n..] + "\"" + t)
            case None => None
            case Some((name, rest)) => Some(([c] + name, rest))
  {
    DropUnit(key, t, n);
    assert (key + "\"" + t)[0] == key[0];
  }

  /** A key that ends inside an escape sequence takes the closing quote for a part of the name. */
  lemma {:induction false} NameRunsOn(key: string, t: string)
    requires key != "" && key[0] == '\\' && EndsElsewhere(t)
    requires Unit(key + "\"" + t).Some? && |key| < Unit(key + "\"" + t).value.1
    ensures match ReadName(key + "\"" + t)
            case None => true
            case Some((name, _)) => Differs(key, name)
  {
    var s := key + "\"" + t;
    assert s[0] == key[0] && s[|key|] == '\"';
    assert s[2..] == t;
  }

  /** An escape sequence shortens a name, so a text that needs escaping is never read as itself. */
  lemma {:induction false} UncleanName(key: string, t: string)
    requires !Clean(key) && EndsElsewhere(t)
    ensures match ReadName(key + "\"" + t)
            case None => true
            case Some((name, _)) => Differs(key, name)
    decreases |key|
  {
    var s := key + "\"" + t;
    assert s[0] == key[0];
    if s[0] == '\"' || Unit(s).None? {
    } else {
      var (c, n) := Unit(s).value;
      if |key| < n {
        NameRunsOn(key, t);
      } else {
        NameOfRest(key, t, n, c);
        if Clean(key[n..]) {
          ReadNameOf(key[n..], t);
          CleanTail(key, n);
        } else {
          UncleanName(key[n..], t);
          if ReadName(key[n..] + "\"" + t).Some? {
            DiffersCons(key, n, c, ReadName(key[n..] + "\"" + t).value.0);
          }
        }
      }
    }
  }

  lemma {:induction false} CleanTail(key: string, n: nat)
    requires !Clean(key) && 1 <= n <= |key| && Clean(key[n..])
    ensures n == 1 ==> !Unescaped(key[0])
  {
    assert forall i :: n <= i < |key| ==> key[i] == key[n..][i-n];
  }

  // ---------- Escaping ----------

  function Escaped(c: char): string {
    if Unescaped(c) then [c]
    else if c == '\"' then "\\\""
    else if c == '\\' then "\\\\"
    else if c == 8 as char then "\\b"
    else if c == 12 as char then "\\f"
    else if c == '\n' then "\\n"
    else if c == '\r' then "\\r"
    else if c == '\t' then "\\t"
    else "\\u00" + [LowerHex(c as int / 16), LowerHex(c as int % 16)]
  }

  function Escape(s: string): string {
    if s == "" then "" else Escaped(s[0]) + Escape(s[1..])
  }

  function LowerHex(d: nat): (c: char)
    requires d < 16
    ensures IsHex(c) && HexDigit(c) == d
  {
    "0123456789abcdef"[d]
  }

  lemma {:induction false} HexOfControl(c: char, rest: string)
    requires c < ' '
    ensures var s := "\\u00" + [LowerHex(c as int / 16), LowerHex(c as int % 16)] + rest;
            HexUnit(s) == Some((c, 6))
  {
    var s := "\\u00" + [LowerHex(c as int / 16), LowerHex(c as int % 16)] + rest;
    assert s[2] == '0' && s[3] == '0' && s[4] == LowerHex(c as int / 16) && s[5] == LowerHex(c as int % 16);
    assert CodeAt(s, 0) == c as int;
  }

  lemma {:induction false} EscapedParts(c: char, rest: string)
    ensures (Escaped(c) + rest)[0] != '\"' && (Escaped(c) + rest)[|Escaped(c)|..] == rest
  {
  }

  lemma {:induction false} UnitOfEscaped(c: char, rest: string)
    ensures Unit(Escaped(c) + rest) == Some((c, |Escaped(c)|))
  {
    var s := Escaped(c) + rest;
    if Unescaped(c) {
      assert s[0] == c;
    } else if s[1] == 'u' {
      HexOfControl(c, rest);
    } else {
      assert s[0] == '\\' && Short(s[1]) == Some(c);
    }
  }

  lemma {:induction false} EscapeThen(c: char, s: string, rest: string)
    ensures Escaped(c) + s + "\"" + rest == Escaped(c) + (s + "\"" + rest)
  {
  }

  /** The reader takes back every text that is escaped before it is printed. */
  lemma {:induction false} EscapedComesBack(s: string, rest: string)
    ensures ReadName(Escape(s) + "\"" + rest) == Some((s, rest))
  {
    if s == "" {
      assert (Escape(s) + "\"" + rest)[1..] == rest;
    } else {
      var others := Escape(s[1..]) + "\"" + rest;
      EscapeThen(s[0], Escape(s[1..]), rest);
      UnitOfEscaped(s[0], others);
      EscapedParts(s[0], others);
      EscapedComesBack(s[1..], rest);
      assert [s[0]] + s[1..] == s;
    }
  }

  /** Exactly the texts that need no escaping are printed as they stand by a printer that escapes. */
  lemma {:induction false} EscapeKeeps(s: string)
    ensures Escape(s) == s <==> Clean(s)
    ensures |Escape(s)| >= |s|
  {
    if s == "" {
    } else {
      EscapeKeeps(s[1..]);
      assert s == [s[0]] + s[1..];
      if Clean(s) {
        assert Clean(s[1..]);
      }
      if Clean(s[1..]) && Unescaped(s[0]) {
        assert forall i :: 0 < i < |s| ==> s[i] == s[1..][i-1];
      }
      if Escape(s) == s {
        assert Unescaped(s[0]) ==> Escape(s)[1..] == Escape(s[1..]);
      }
    }
  }
}
