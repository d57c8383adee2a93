/**
 * A JavaScript object whose values are booleans, as the chapter-summary registry holds it:
 * the keys in insertion order, each key at most once.
 */
module JsObject {
  import opened Wrappers

  type Entries = seq<(string, bool)>

  /** What every JavaScript object satisfies: no key appears twice. */
  predicate UniqueKeys(e: Entries) {
    forall i, j :: 0 <= i < j < |e| ==> e[i].0 != e[j].0
  }

  function Keys(e: Entries): (ks: seq<string>)
    ensures |ks| == |e| && forall i :: 0 <= i < |e| ==> ks[i] == e[i].0
  {
    if e == [] then [] else [e[0].0] + Keys(e[1..])
  }

  /** Property access `obj[key]`: the value stored under `key`, if any. */
  function Get(e: Entries, key: string): (r: Option<bool>)
    ensures r.Some? <==> exists i :: 0 <= i < |e| && e[i].0 == key
    ensures UniqueKeys(e) ==> forall i :: 0 <= i < |e| && e[i].0 == key ==> r == Some(e[i].1)
  {
    if e == [] then None
    else if e[0].0 == key then Some(e[0].1)
    else
      var r := Get(e[1..], key);
      assert forall i :: 1 <= i < |e| ==> e[1..][i - 1] == e[i];
      r
  }

  /**
   * The object `{ ...e, [key]: value }` (also what JSON.parse builds on a repeated key):
   * an existing key keeps its place and takes the new value, a new key goes last.
   */
  function Set(e: Entries, key: string, value: bool): (r: Entries)
    ensures Get(r, key) == Some(value)
    ensures forall k :: k != key ==> Get(r, k) == Get(e, k)
  {
    if e == [] then [(key, value)]
    else if e[0].0 == key then [(key, value)] + e[1..]
    else
      var tail := Set(e[1..], key, value);
      var r := [e[0]] + tail;
      assert r[1..] == tail;
      r
  }

  /** Setting a key that is present changes no key and no position. */
  lemma {:induction false} SetPresentKeepsKeys(e: Entries, key: string, value: bool)
    requires Get(e, key).Some?
    ensures Keys(Set(e, key, value)) == Keys(e)
  {
    if e[0].0 != key {
      SetPresentKeepsKeys(e[1..], key, value);
      assert Set(e, key, value) == [e[0]] + Set(e[1..], key, value);
      assert Keys(Set(e, key, value)) == [e[0].0] + Keys(Set(e[1..], key, value));
      assert Keys(e) == [e[0].0] + Keys(e[1..]);
    }
  }

  /** Setting an absent key appends it. */
  lemma {:induction false} SetAbsentAppends(e: Entries, key: string, value: bool)
    requires Get(e, key).None?
    ensures Set(e, key, value) == e + [(key, value)]
  {
    if e != [] {
      assert e[0].0 != key && Get(e[1..], key) == Get(e, key);
      SetAbsentAppends(e[1..], key, value);
      assert Set(e, key, value) == [e[0]] + (e[1..] + [(key, value)]);
      assert [e[0]] + (e[1..] + [(key, value)]) == e + [(key, value)];
    }
  }

  /** Setting a key to the value it already has leaves the object exactly as it was. */
  lemma {:induction false} SetSameIsIdentity(e: Entries, key: string, value: bool)
    requires Get(e, key) == Some(value)
    ensures Set(e, key, value) == e
  {
    assert [e[0]] + e[1..] == e;
    if e[0].0 != key {
      assert Get(e[1..], key) == Get(e, key);
      SetSameIsIdentity(e[1..], key, value);
      assert Set(e, key, value) == [e[0]] + e[1..];
    } else {
      assert e[0] == (key, value);
    }
  }

  /** Setting a key never creates a duplicate. */
  lemma {:induction false} SetKeepsUnique(e: Entries, key: string, value: bool)
    requires UniqueKeys(e)
    ensures UniqueKeys(Set(e, key, value))
  {
    var r := Set(e, key, value);
    if Get(e, key).Some? {
      SetPresentKeepsKeys(e, key, value);
      assert forall i :: 0 <= i < |r| ==> r[i].0 == Keys(r)[i] == Keys(e)[i] == e[i].0;
    } else {
      SetAbsentAppends(e, key, value);
    }
  }

  /** The keys of `e` whose value is `true`. */
  function TrueKeys(e: Entries): (s: set<string>)
    ensures forall k :: k in s <==> exists i :: 0 <= i < |e| && e[i] == (k, true)
  {
    set i | 0 <= i < |e| && e[i].1 :: e[i].0
  }
}

/**
 * JSON.stringify and JSON.parse for objects whose values are booleans: the compact text
 * JSON.stringify writes, and a parser for that grammar with JSON's insignificant whitespace
 * and all of its string escapes.
 */
module Json {
  import opened Wrappers
  import opened JsObject

  // ---------------------------------------------------------------- writing

  function HexDigit(n: nat): char
    requires n < 16
  {
    "0123456789abcdef"[n]
  }

  /** How JSON.stringify writes one character of a string. */
  function EscapeChar(c: char): string {
    if c == '"' then "\\\""
    else if c == '\\' then "\\\\"
    else if c == 8 as char then "\\b"
    else if c == 12 as char then "\\f"
    else if c == '\n' then "\\n"
    else if c == '\r' then "\\r"
    else if c == '\t' then "\\t"
    else if c < ' ' then "\\u00" + [HexDigit(c as int / 16), HexDigit(c as int % 16)]
    else [c]
  }

  function Escape(s: string): string {
    if s == [] then "" else EscapeChar(s[0]) + Escape(s[1..])
  }

  function BoolText(b: bool): string {
    if b then "true" else "false"
  }

  function Member(m: (string, bool)): string {
    "\"" + Escape(m.0) + "\":" + BoolText(m.1)
  }

  function Members(e: Entries): string {
    if e == [] then ""
    else if |e| == 1 then Member(e[0])
    else Member(e[0]) + "," + Members(e[1..])
  }

  /** `JSON.stringify(obj)`. */
  function Stringify(e: Entries): string {
    "{" + Members(e) + "}"
  }

  // ---------------------------------------------------------------- reading

  predicate IsWs(c: char) {
    c == ' ' || c == '\t' || c == '\n' || c == '\r'
  }

  function SkipWs(t: string): (r: string)
    ensures |r| <= |t| && r == t[|t| - |r|..]
    ensures forall i :: 0 <= i < |t| - |r| ==> IsWs(t[i])
    ensures r == [] || !IsWs(r[0])
  {
    if t != [] && IsWs(t[0]) then SkipWs(t[1..]) else t
  }

  function HexValue(c: char): (r: Option<nat>)
    ensures r.Some? ==> r.value < 16
  {
    if '0' <= c <= '9' then Some(c as int - '0' as int)
    else if 'a' <= c <= 'f' then Some(c as int - 'a' as int + 10)
    else if 'A' <= c <= 'F' then Some(c as int - 'A' as int + 10)
    else None
  }

  function Hex4(h: string): (r: Option<nat>)
    requires |h| == 4
    ensures r.Some? ==> r.value < 0x1_0000
  {
    match (HexValue(h[0]), HexValue(h[1]), HexValue(h[2]), HexValue(h[3]))
    case (Some(a), Some(b), Some(c), Some(d)) => Some(((a * 16 + b) * 16 + c) * 16 + d)
    case _ => None
  }

  /** The character an escape sequence (after its backslash) stands for, and the text after it. */
  function ParseEscape(t: string): (r: Result<(char, string)>)
    ensures r.Ok? ==> |r.value.1| < |t|
  {
    if t == [] then Err("unterminated escape")
    else if t[0] == '"' then Ok(('"', t[1..]))
    else if t[0] == '\\' then Ok(('\\', t[1..]))
    else if t[0] == '/' then Ok(('/', t[1..]))
    else if t[0] == 'b' then Ok((8 as char, t[1..]))
    else if t[0] == 'f' then Ok((12 as char, t[1..]))
    else if t[0] == 'n' then Ok(('\n', t[1..]))
    else if t[0] == 'r' then Ok(('\r', t[1..]))
    else if t[0] == 't' then Ok(('\t', t[1..]))
    else if t[0] == 'u' && |t| >= 5 then
      match Hex4(t[1..5])
      case None => Err("bad unicode escape")
      case Some(n) =>
        if 0xD800 <= n <= 0xDFFF then Err("surrogate escape")
        else Ok((n as char, t[5..]))
    else Err("bad escape")
  }

  /** The body of a string literal up to its closing quote, and the text after that quote. */
  function ParseStringBody(t: string): (r: Result<(string, string)>)
    ensures r.Ok? ==> |r.value.1| < |t|
    decreases |t|
  {
    if t == [] then Err("unterminated string")
    else if t[0] == '"' then Ok(("", t[1..]))
    else if t[0] == '\\' then
      match ParseEscape(t[1..])
      case Err(m) => Err(m)
      case Ok((c, rest)) =>
        match ParseStringBody(rest)
        case Err(m) => Err(m)
        case Ok((s, after)) => Ok(([c] + s, after))
    else if t[0] < ' ' then Err("control character in string")
    else
      match ParseStringBody(t[1..])
      case Err(m) => Err(m)
      case Ok((s, after)) => Ok(([t[0]] + s, after))
  }

  function ParseBool(t: string): (r: Result<(bool, string)>)
    ensures r.Ok? ==> |r.value.1| < |t|
  {
    if |t| >= 4 && t[..4] == "true" then Ok((true, t[4..]))
    else if |t| >= 5 && t[..5] == "false" then Ok((false, t[5..]))
    else Err("expected a boolean")
  }

  /** One member `"key" : value` (with whitespace around the colon and after the value) and the text after it. */
  function ParseMember(u: string): (r: Result<((string, bool), string)>)
    ensures r.Ok? ==> |r.value.1| < |u|
  {
    if u == [] || u[0] != '"' then Err("expected a key")
    else
      var key := ParseStringBody(u[1..]);
      if key.Err? then Err(key.message)
      else
        var r2 := SkipWs(key.value.1);
        if r2 == [] || r2[0] != ':' then Err("expected ':'")
        else
          var value := ParseBool(SkipWs(r2[1..]));
          if value.Err? then Err(value.message)
          else Ok(((key.value.0, value.value.0), SkipWs(value.value.1)))
  }

  /**
   * The members of an object from the first key on, added to `acc` in order; a repeated
   * key overwrites the earlier value in place, as JSON.parse does.
   */
  function ParseMembers(u: string, acc: Entries): (r: Result<(Entries, string)>)
    ensures r.Ok? ==> |r.value.1| < |u|
    ensures r.Ok? && UniqueKeys(acc) ==> UniqueKeys(r.value.0)
    decreases |u|
  {
    match ParseMember(u)
    case Err(m) => Err(m)
    case Ok((member, rest)) =>
      var acc' := Set(acc, member.0, member.1);
      assert UniqueKeys(acc) ==> UniqueKeys(acc') by {
        if UniqueKeys(acc) { SetKeepsUnique(acc, member.0, member.1); }
      }
      if rest == [] then Err("unterminated object")
      else if rest[0] == ',' then ParseMembers(SkipWs(rest[1..]), acc')
      else if rest[0] == '}' then Ok((acc', rest[1..]))
      else Err("expected ',' or '}'")
  }

  /** What follows an object's opening brace: its members and closing brace, and the text after it. */
  function ParseObjectBody(v: string): (r: Result<(Entries, string)>)
    ensures r.Ok? ==> UniqueKeys(r.value.0)
  {
    if v != [] && v[0] == '}' then Ok(([], v[1..])) else ParseMembers(v, [])
  }

  /** `JSON.parse(text)` for a text that holds one object of booleans; any other text is an error. */
  function Parse(t: string): (r: Result<Entries>)
    ensures r.Ok? ==> UniqueKeys(r.value)
  {
    var u := SkipWs(t);
    if u == [] || u[0] != '{' then Err("expected an object")
    else
      var body := ParseObjectBody(SkipWs(u[1..]));
      if body.Err? then Err(body.message)
      else if SkipWs(body.value.1) != [] then Err("unexpected text after the object")
      else Ok(body.value.0)
  }

  // ---------------------------------------------------------------- facts

  /** A text that is blank, or whose first non-blank character does not open an object, is rejected. */
  lemma NotAnObject(t: string)
    requires SkipWs(t) == [] || SkipWs(t)[0] != '{'
    ensures Parse(t).Err?
  {
  }

  lemma HexRoundTrip(n: nat)
    requires n < 16
    ensures HexValue(HexDigit(n)) == Some(n)
  {
  }

  /** Reading back what EscapeChar wrote for one character. */
  lemma EscapeCharRoundTrip(c: char, x: string, s: string, after: string)
    requires ParseStringBody(x) == Ok((s, after))
    ensures ParseStringBody(EscapeChar(c) + x) == Ok(([c] + s, after))
  {
    if c == '"' || c == '\\' || c == 8 as char || c == 12 as char || c == '\n' || c == '\r' || c == '\t' {
      ShortEscapeRoundTrip(c, x, s, after);
    } else if c < ' ' {
      UnicodeEscapeRoundTrip(c, x, s, after);
    } else {
      var t := EscapeChar(c) + x;
      assert t == [c] + x;
      assert t[1..] == x;
    }
  }

  /** The two-character escapes. */
  lemma ShortEscapeRoundTrip(c: char, x: string, s: string, after: string)
    requires c == '"' || c == '\\' || c == 8 as char || c == 12 as char || c == '\n' || c == '\r' || c == '\t'
    requires ParseStringBody(x) == Ok((s, after))
    ensures ParseStringBody(EscapeChar(c) + x) == Ok(([c] + s, after))
  {
    var t := EscapeChar(c) + x;
    assert t[0] == '\\';
    assert t[1..] == [EscapeChar(c)[1]] + x;
    assert ParseEscape(t[1..]) == Ok((c, x));
  }

  /** The six-character `\u00XX` escapes of the other control characters. */
  lemma UnicodeEscapeRoundTrip(c: char, x: string, s: string, after: string)
    requires c < ' ' && c != 8 as char && c != 12 as char && c != '\n' && c != '\r' && c != '\t'
    requires ParseStringBody(x) == Ok((s, after))
    ensures ParseStringBody(EscapeChar(c) + x) == Ok(([c] + s, after))
  {
    var t := EscapeChar(c) + x;
    var hi, lo := c as int / 16, c as int % 16;
    HexRoundTrip(hi);
    HexRoundTrip(lo);
    assert t[0] == '\\';
    assert t[1..] == "u00" + [HexDigit(hi), HexDigit(lo)] + x;
    assert t[1..][1..5] == "00" + [HexDigit(hi), HexDigit(lo)];
    assert Hex4(t[1..][1..5]) == Some(c as int);
    assert t[1..][5..] == x;
    assert ParseEscape(t[1..]) == Ok((c, x));
  }

  /** A string literal written by JSON.stringify reads back as the same string. */
  lemma {:induction false} StringRoundTrip(s: string, rest: string)
    ensures ParseStringBody(Escape(s) + "\"" + rest) == Ok((s, rest))
  {
    if s == [] {
      assert Escape(s) + "\"" + rest == "\"" + rest;
    } else {
      var x := Escape(s[1..]) + "\"" + rest;
      StringRoundTrip(s[1..], rest);
      assert Escape(s) + "\"" + rest == EscapeChar(s[0]) + x;
      EscapeCharRoundTrip(s[0], x, s[1..], rest);
      assert [s[0]] + s[1..] == s;
    }
  }

  /** Adding the members of `e` one after another to `acc`. */
  function SetAll(acc: Entries, e: Entries): Entries
    decreases |e|
  {
    if e == [] then acc else SetAll(Set(acc, e[0].0, e[0].1), e[1..])
  }

  lemma {:induction false} SetAllFresh(acc: Entries, e: Entries)
    requires UniqueKeys(acc + e)
    ensures SetAll(acc, e) == acc + e
    decreases |e|
  {
    if e != [] {
      NextKeyIsNew(acc, e);
      SetAbsentAppends(acc, e[0].0, e[0].1);
      AppendHead(acc, e);
      SetAllFresh(acc + [e[0]], e[1..]);
    }
  }

  lemma AppendHead<T>(a: seq<T>, e: seq<T>)
    requires e != []
    ensures a + [e[0]] + e[1..] == a + e
  {
    assert [e[0]] + e[1..] == e;
  }

  lemma NextKeyIsNew(acc: Entries, e: Entries)
    requires e != [] && UniqueKeys(acc + e)
    ensures Get(acc, e[0].0).None?
  {
    var ae := acc + e;
    forall i | 0 <= i < |acc| ensures acc[i].0 != e[0].0 {
      assert ae[i] == acc[i] && ae[|acc|] == e[0];
    }
  }

  /** ParseMember, step by step. */
  lemma ParseMemberSteps(u: string, key: string, r1: string, value: bool, tail: string)
    requires u != [] && u[0] == '"'
    requires ParseStringBody(u[1..]) == Ok((key, r1))
    requires r1 != [] && r1[0] == ':' && SkipWs(r1) == r1
    requires SkipWs(r1[1..]) == r1[1..] && ParseBool(r1[1..]) == Ok((value, tail))
    requires SkipWs(tail) == tail
    ensures ParseMember(u) == Ok(((key, value), tail))
  {
  }

  /** A boolean literal reads back, whatever follows it. */
  lemma BoolRoundTrip(b: bool, tail: string)
    ensures ParseBool(BoolText(b) + tail) == Ok((b, tail))
    ensures SkipWs(BoolText(b) + tail) == BoolText(b) + tail
  {
    if b {
      var t := "true" + tail;
      assert t[0] == 't' && t[..4] == "true" && t[4..] == tail;
    } else {
      var t := "false" + tail;
      assert t[..4] != "true" by { assert t[..4][1] == 'a'; }
      assert t[0] == 'f' && t[..5] == "false" && t[5..] == tail;
    }
  }

  /** How a written member splits at its key's opening quote and at the colon. */
  lemma MemberText(m: (string, bool), tail: string)
    ensures var u := Member(m) + tail;
      u != [] && u[0] == '"' && u[1..] == Escape(m.0) + "\"" + (":" + (BoolText(m.1) + tail))
  {
    QuotedText(Escape(m.0), BoolText(m.1), tail);
  }

  lemma QuotedText(k: string, b: string, tail: string)
    ensures var u := "\"" + k + "\":" + b + tail;
      u != [] && u[0] == '"' && u[1..] == k + "\"" + (":" + (b + tail))
  {
    var u := "\"" + k + "\":" + b + tail;
    assert u == "\"" + (k + "\"" + (":" + (b + tail)));
  }

  /** One member JSON.stringify wrote reads back, up to the character that follows it. */
  lemma OneMemberRoundTrip(m: (string, bool), tail: string)
    requires tail != [] && !IsWs(tail[0])
    ensures ParseMember(Member(m) + tail) == Ok((m, tail))
  {
    var u := Member(m) + tail;
    var bt := BoolText(m.1) + tail;
    var r1 := ":" + bt;
    MemberText(m, tail);
    StringRoundTrip(m.0, r1);
    ColonText(bt, r1);
    BoolRoundTrip(m.1, tail);
    NoLeadingBlank(tail);
    ParseMemberSteps(u, m.0, r1, m.1, tail);
  }

  lemma ColonText(bt: string, r1: string)
    requires r1 == ":" + bt
    ensures r1 != [] && r1[0] == ':' && r1[1..] == bt && SkipWs(r1) == r1
  {
  }

  lemma NoLeadingBlank(t: string)
    requires t != [] && !IsWs(t[0])
    ensures SkipWs(t) == t
  {
  }

  /** ParseMembers after one member, step by step. */
  lemma ParseMembersStep(u: string, acc: Entries, member: (string, bool), rest: string)
    requires ParseMember(u) == Ok((member, rest)) && rest != [] && (rest[0] == ',' || rest[0] == '}')
    ensures ParseMembers(u, acc) ==
      if rest[0] == '}' then Ok((Set(acc, member.0, member.1), rest[1..]))
      else ParseMembers(SkipWs(rest[1..]), Set(acc, member.0, member.1))
  {
  }

  lemma MembersStartWithQuote(e: Entries, rest: string)
    requires e != []
    ensures var v := Members(e) + "}" + rest; v != [] && v[0] == '"' && SkipWs(v) == v
  {
    var v := Members(e) + "}" + rest;
    assert Member(e[0])[0] == '"';
    if |e| == 1 {
      assert Members(e) == Member(e[0]);
    } else {
      assert Members(e) == Member(e[0]) + "," + Members(e[1..]);
    }
    assert v[0] == Members(e)[0];
  }

  /** Reading past the first of several members JSON.stringify wrote. */
  lemma MembersStep(e: Entries, acc: Entries, rest: string)
    requires |e| > 1
    ensures ParseMembers(Members(e) + "}" + rest, acc) ==
            ParseMembers(Members(e[1..]) + "}" + rest, Set(acc, e[0].0, e[0].1))
  {
    var u := Members(e) + "}" + rest;
    var v := Members(e[1..]) + "}" + rest;
    var tail := "," + v;
    assert u == Member(e[0]) + tail;
    OneMemberRoundTrip(e[0], tail);
    ParseMembersStep(u, acc, e[0], tail);
    assert tail[1..] == v;
    MembersStartWithQuote(e[1..], rest);
  }

  /** The members JSON.stringify wrote read back, followed by the closing brace. */
  lemma {:induction false} MembersRoundTrip(e: Entries, acc: Entries, rest: string)
    requires e != []
    ensures ParseMembers(Members(e) + "}" + rest, acc) == Ok((SetAll(acc, e), rest))
    decreases |e|
  {
    var acc' := Set(acc, e[0].0, e[0].1);
    if |e| == 1 {
      var u := Members(e) + "}" + rest;
      var tail := "}" + rest;
      assert u == Member(e[0]) + tail;
      OneMemberRoundTrip(e[0], tail);
      ParseMembersStep(u, acc, e[0], tail);
      assert tail[1..] == rest;
      assert SetAll(acc', e[1..]) == acc' by { assert e[1..] == []; }
    } else {
      MembersStep(e, acc, rest);
      MembersRoundTrip(e[1..], acc', rest);
    }
  }

  lemma ObjectBodyOfMembers(v: string, e: Entries)
    requires v != [] && v[0] == '"'
    requires ParseMembers(v, []) == Ok((e, []))
    ensures ParseObjectBody(v) == Ok((e, []))
  {
  }

  /** Parse, step by step, for a text that starts with its opening brace. */
  lemma ParseSteps(t: string, v: string, e: Entries)
    requires t == "{" + v && v != [] && SkipWs(v) == v
    requires ParseObjectBody(v) == Ok((e, []))
    ensures Parse(t) == Ok(e)
  {
    assert t[0] == '{' && SkipWs(t) == t;
    assert t[1..] == v;
    assert SkipWs([]) == [];
  }

  lemma ParseNonEmptyObject(e: Entries)
    requires e != []
    ensures Parse(Stringify(e)) == Ok(SetAll([], e))
  {
    var v := Members(e) + "}" + "";
    assert Stringify(e) == "{" + v;
    MembersStartWithQuote(e, "");
    MembersRoundTrip(e, [], "");
    ObjectBodyOfMembers(v, SetAll([], e));
    ParseSteps(Stringify(e), v, SetAll([], e));
  }

  lemma ParseEmptyObject()
    ensures Parse("{}") == Ok([])
  {
    EmptyBody("}", []);
    ParseSteps("{}", "}", []);
  }

  lemma EmptyBody(v: string, rest: string)
    requires v == "}" + rest
    ensures ParseObjectBody(v) == Ok(([], rest))
  {
    assert v[1..] == rest;
  }

  /** What JSON.stringify writes, JSON.parse reads back. */
  lemma ParseStringify(e: Entries)
    requires UniqueKeys(e)
    ensures Parse(Stringify(e)) == Ok(e)
  {
    if e == [] {
      assert Stringify(e) == "{}";
      ParseEmptyObject();
    } else {
      ParseNonEmptyObject(e);
      SetAllFresh([], e);
      assert [] + e == e;
    }
  }
}
