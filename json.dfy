/**
  The values the persistence layer writes into the key-value store, and the text
  encoding it uses for them.

  The source stores every value as `JSON.stringify(...)` text and reads it back
  with `JSON.parse`. The internals of JSON are not what this model is about, so
  `Serialize` is a compact JSON-shaped encoding and `Parse` is its partial
  inverse: `Parse` fails (returns `None`) on text that `Serialize` does not
  produce, and `Parse(Serialize(v)) == Some(v)` for every value.
*/
module Json {
  import opened Wrappers

  /** A JSON value. Numbers are integers; object members keep their order. */
  datatype Json =
    | JNull
    | JBool(b: bool)
    | JNum(n: int)
    | JStr(s: string)
    | JArr(items: seq<Json>)
    | JObj(fields: seq<Field>)

  datatype Field = Field(name: string, value: Json)

  /** A parser's result: the value read and the text left after it. */
  datatype Parsed<T> = Parsed(value: T, rest: string)

  /** JavaScript truthiness of a parsed value (`!!v`). */
  predicate Truthy(v: Json) {
    match v
    case JNull => false
    case JBool(b) => b
    case JNum(n) => n != 0
    case JStr(s) => s != ""
    case JArr(_) => true
    case JObj(_) => true
  }

  /**
    Property access on an object (`v.name`). `JSON.parse` keeps the last of
    several members with the same name, so the last one wins here too.
  */
  function Lookup(fields: seq<Field>, name: string): Option<Json>
  {
    if fields == [] then None
    else
      match Lookup(fields[1..], name)
      case Some(v) => Some(v)
      case None => if fields[0].name == name then Some(fields[0].value) else None
  }

  /**
    What `Lookup` finds: the value of the last member of that name, or nothing
    when no member has it.
  */
  lemma {:induction false} LookupLastWins(fields: seq<Field>, name: string)
    ensures Lookup(fields, name).Some? ==>
      exists i :: (0 <= i < |fields| && fields[i] == Field(name, Lookup(fields, name).value) &&
                   forall j :: i < j < |fields| ==> fields[j].name != name)
    ensures Lookup(fields, name).None? ==> forall i :: 0 <= i < |fields| ==> fields[i].name != name
    decreases |fields|
  {
    if fields != [] {
      LookupLastWins(fields[1..], name);
      assert forall k :: 1 <= k < |fields| ==> fields[k] == fields[1..][k - 1];
      match Lookup(fields[1..], name)
      case Some(v) =>
        var j :| (0 <= j < |fields[1..]| && fields[1..][j] == Field(name, v) &&
                  forall k :: j < k < |fields[1..]| ==> fields[1..][k].name != name);
        assert fields[j + 1] == Field(name, v);
      case None =>
        if fields[0].name == name {
          assert fields[0] == Field(name, Lookup(fields, name).value);
        }
    }
  }

  /** A member whose name no other member has is what the lookup finds. */
  lemma LookupUnique(fields: seq<Field>, i: nat)
    requires i < |fields|
    requires forall j :: 0 <= j < |fields| && j != i ==> fields[j].name != fields[i].name
    ensures Lookup(fields, fields[i].name) == Some(fields[i].value)
  {
    LookupLastWins(fields, fields[i].name);
  }

  /** In an object of four members with distinct names, each name finds its own member. */
  lemma LookupFour(f0: Field, f1: Field, f2: Field, f3: Field)
    requires f0.name != f1.name && f0.name != f2.name && f0.name != f3.name
    requires f1.name != f2.name && f1.name != f3.name && f2.name != f3.name
    ensures Lookup([f0, f1, f2, f3], f0.name) == Some(f0.value)
    ensures Lookup([f0, f1, f2, f3], f1.name) == Some(f1.value)
    ensures Lookup([f0, f1, f2, f3], f2.name) == Some(f2.value)
    ensures Lookup([f0, f1, f2, f3], f3.name) == Some(f3.value)
  {
    var fs := [f0, f1, f2, f3];
    LookupUnique(fs, 0); LookupUnique(fs, 1); LookupUnique(fs, 2); LookupUnique(fs, 3);
  }

  // ----- the text encoding -----

  predicate IsDigit(c: char) { '0' <= c <= '9' }

  function DigitChar(d: nat): (c: char)
    requires d < 10
    ensures IsDigit(c)
  {
    ('0' as int + d) as char
  }

  function DigitValue(c: char): nat
    requires IsDigit(c)
  {
    c as int - '0' as int
  }

  /** The decimal digits of `n`, most significant first, without leading zeros. */
  function NatText(n: nat): string
    decreases n
  {
    if n < 10 then [DigitChar(n)] else NatText(n / 10) + [DigitChar(n % 10)]
  }

  /** The characters of a string literal's body, with `"` and `\` escaped. */
  function Escape(s: string): string
  {
    if s == [] then []
    else (if s[0] == '"' || s[0] == '\\' then ['\\', s[0]] else [s[0]]) + Escape(s[1..])
  }

  function Quote(s: string): string
  {
    ['"'] + Escape(s) + ['"']
  }

  /** The text stored for `v` (`JSON.stringify(v)`). */
  function Serialize(v: Json): string
    decreases v
  {
    match v
    case JNull => "null"
    case JBool(b) => if b then "true" else "false"
    case JNum(n) => if n < 0 then "-" + NatText(-n) else NatText(n)
    case JStr(s) => Quote(s)
    case JArr(items) => "[" + Elements(items) + "]"
    case JObj(fields) => "{" + Members(fields) + "}"
  }

  function Elements(items: seq<Json>): string
    decreases items
  {
    if items == [] then ""
    else if |items| == 1 then Serialize(items[0])
    else Serialize(items[0]) + "," + Elements(items[1..])
  }

  function Members(fields: seq<Field>): string
    decreases fields
  {
    if fields == [] then ""
    else if |fields| == 1 then Member(fields[0])
    else Member(fields[0]) + "," + Members(fields[1..])
  }

  function Member(f: Field): string
    decreases f
  {
    Quote(f.name) + ":" + Serialize(f.value)
  }

  // ----- the parser -----

  /** The value of a run of decimal digits. */
  function DigitsValue(d: string): nat
    requires forall i :: 0 <= i < |d| ==> IsDigit(d[i])
  {
    if d == [] then 0 else DigitsValue(d[..|d| - 1]) * 10 + DigitValue(d[|d| - 1])
  }

  /** The length of the longest run of digits at the start of `t`. */
  function DigitSpan(t: string): (k: nat)
    ensures k <= |t|
    ensures forall i :: 0 <= i < k ==> IsDigit(t[i])
  {
    if t != [] && IsDigit(t[0]) then 1 + DigitSpan(t[1..]) else 0
  }

  function ParseNat(t: string): (r: Option<Parsed<nat>>)
    ensures r.Some? ==> |r.value.rest| < |t|
  {
    var k := DigitSpan(t);
    if k == 0 then None else Some(Parsed(DigitsValue(t[..k]), t[k..]))
  }

  /** Reads a string literal's body up to and including its closing quote. */
  function ParseChars(t: string): (r: Option<Parsed<string>>)
    ensures r.Some? ==> |r.value.rest| < |t|
  {
    if t == [] then None
    else if t[0] == '"' then Some(Parsed([], t[1..]))
    else if t[0] == '\\' then
      if |t| >= 2 && (t[1] == '"' || t[1] == '\\') then
        match ParseChars(t[2..])
        case None => None
        case Some(p) => Some(Parsed([t[1]] + p.value, p.rest))
      else None
    else
      match ParseChars(t[1..])
      case None => None
      case Some(p) => Some(Parsed([t[0]] + p.value, p.rest))
  }

  function Literal(s: string, word: string, v: Json): (r: Option<Parsed<Json>>)
    requires word != []
    ensures r.Some? ==> |r.value.rest| < |s|
  {
    if |word| <= |s| && s[..|word|] == word then Some(Parsed(v, s[|word|..])) else None
  }

  function ParseValue(s: string): (r: Option<Parsed<Json>>)
    ensures r.Some? ==> |r.value.rest| < |s|
    decreases |s|, 3
  {
    if s == [] then None
    else if s[0] == 'n' then Literal(s, "null", JNull)
    else if s[0] == 't' then Literal(s, "true", JBool(true))
    else if s[0] == 'f' then Literal(s, "false", JBool(false))
    else if s[0] == '"' then ParseString(s)
    else if s[0] == '-' || IsDigit(s[0]) then ParseNumber(s)
    else if s[0] == '[' then ParseArray(s)
    else if s[0] == '{' then ParseObject(s)
    else None
  }

  function ParseString(s: string): (r: Option<Parsed<Json>>)
    requires s != [] && s[0] == '"'
    ensures r.Some? ==> |r.value.rest| < |s|
  {
    match ParseChars(s[1..])
    case None => None
    case Some(p) => Some(Parsed(JStr(p.value), p.rest))
  }

  function ParseNumber(s: string): (r: Option<Parsed<Json>>)
    requires s != []
    ensures r.Some? ==> |r.value.rest| < |s|
  {
    if s[0] == '-' then
      match ParseNat(s[1..])
      case None => None
      case Some(p) => Some(Parsed(JNum(-(p.value as int)), p.rest))
    else
      match ParseNat(s)
      case None => None
      case Some(p) => Some(Parsed(JNum(p.value), p.rest))
  }

  function ParseArray(s: string): (r: Option<Parsed<Json>>)
    requires s != [] && s[0] == '['
    ensures r.Some? ==> |r.value.rest| < |s|
    decreases |s|, 2
  {
    if |s| > 1 && s[1] == ']' then Some(Parsed(JArr([]), s[2..]))
    else
      match ParseElements(s[1..])
      case None => None
      case Some(p) => Some(Parsed(JArr(p.value), p.rest))
  }

  function ParseObject(s: string): (r: Option<Parsed<Json>>)
    requires s != [] && s[0] == '{'
    ensures r.Some? ==> |r.value.rest| < |s|
    decreases |s|, 2
  {
    if |s| > 1 && s[1] == '}' then Some(Parsed(JObj([]), s[2..]))
    else
      match ParseMembers(s[1..])
      case None => None
      case Some(p) => Some(Parsed(JObj(p.value), p.rest))
  }

  /** Reads `v,v,...,v]` (at least one element) and the closing bracket. */
  function ParseElements(t: string): (r: Option<Parsed<seq<Json>>>)
    ensures r.Some? ==> |r.value.rest| < |t|
    decreases |t|, 4
  {
    match ParseValue(t)
    case None => None
    case Some(p) =>
      if p.rest == [] then None
      else if p.rest[0] == ']' then Some(Parsed([p.value], p.rest[1..]))
      else if p.rest[0] == ',' then
        match ParseElements(p.rest[1..])
        case None => None
        case Some(q) => Some(Parsed([p.value] + q.value, q.rest))
      else None
  }

  /** Reads `"k":v,...,"k":v}` (at least one member) and the closing brace. */
  function ParseMembers(t: string): (r: Option<Parsed<seq<Field>>>)
    ensures r.Some? ==> |r.value.rest| < |t|
    decreases |t|, 4
  {
    if t == [] || t[0] != '"' then None
    else
      match ParseChars(t[1..])
      case None => None
      case Some(k) =>
        if k.rest == [] || k.rest[0] != ':' then None
        else
          match ParseValue(k.rest[1..])
          case None => None
          case Some(p) =>
            if p.rest == [] then None
            else if p.rest[0] == '}' then Some(Parsed([Field(k.value, p.value)], p.rest[1..]))
            else if p.rest[0] == ',' then
              match ParseMembers(p.rest[1..])
              case None => None
              case Some(q) => Some(Parsed([Field(k.value, p.value)] + q.value, q.rest))
            else None
  }

  /** `JSON.parse`: a whole text that is one value, or `None` where it would throw. */
  function Parse(s: string): Option<Json>
  {
    match ParseValue(s)
    case None => None
    case Some(p) => if p.rest == [] then Some(p.value) else None
  }

  // ----- round trip -----

  lemma {:induction false} NatTextDigits(n: nat)
    ensures NatText(n) != []
    ensures forall i :: 0 <= i < |NatText(n)| ==> IsDigit(NatText(n)[i])
    ensures DigitsValue(NatText(n)) == n
    decreases n
  {
    if n >= 10 {
      NatTextDigits(n / 10);
      var d := NatText(n / 10) + [DigitChar(n % 10)];
      assert d[..|d| - 1] == NatText(n / 10);
    }
  }

  lemma {:induction false} DigitSpanAfterDigits(d: string, rest: string)
    requires forall i :: 0 <= i < |d| ==> IsDigit(d[i])
    requires rest == [] || !IsDigit(rest[0])
    ensures DigitSpan(d + rest) == |d|
    decreases |d|
  {
    if d != [] {
      assert (d + rest)[1..] == d[1..] + rest;
      DigitSpanAfterDigits(d[1..], rest);
    }
  }

  lemma ParseNatText(n: nat, rest: string)
    requires rest == [] || !IsDigit(rest[0])
    ensures ParseNat(NatText(n) + rest) == Some(Parsed(n, rest))
  {
    NatTextDigits(n);
    var d := NatText(n);
    DigitSpanAfterDigits(d, rest);
    assert (d + rest)[..|d|] == d;
    assert (d + rest)[|d|..] == rest;
  }

  lemma {:induction false} ParseEscaped(s: string, rest: string)
    ensures ParseChars(Escape(s) + ['"'] + rest) == Some(Parsed(s, rest))
    decreases |s|
  {
    if s == [] {
      DropFirst('"', rest);
    } else {
      var after := Escape(s[1..]) + ['"'] + rest;
      ParseEscaped(s[1..], rest);
      var head := if s[0] == '"' || s[0] == '\\' then ['\\', s[0]] else [s[0]];
      Assoc4(head, Escape(s[1..]), ['"'], rest);
      ParseCharsStep(head, after, s[0], s[1..], rest);
      assert [s[0]] + s[1..] == s;
    }
  }

  /** How `ParseChars` proceeds past one (possibly escaped) character. */
  lemma ParseCharsStep(head: string, after: string, c: char, tail: string, rest: string)
    requires head == if c == '"' || c == '\\' then ['\\', c] else [c]
    requires ParseChars(after) == Some(Parsed(tail, rest))
    ensures ParseChars(head + after) == Some(Parsed([c] + tail, rest))
  {
    assert (head + after)[|head|..] == after;
  }

  /** No serialized value starts with a closing bracket or brace. */
  lemma SerializeStart(v: Json)
    ensures Serialize(v) != []
    ensures Serialize(v)[0] != ']' && Serialize(v)[0] != '}'
  {
    if v.JNum? {
      NatTextDigits(if v.n < 0 then -v.n else v.n);
    }
  }

  /** Parsing the serialization of `v` followed by any text that does not continue a number gives back `v`. */
  lemma {:induction false} ParseSerialized(v: Json, rest: string)
    requires rest == [] || !IsDigit(rest[0])
    ensures ParseValue(Serialize(v) + rest) == Some(Parsed(v, rest))
    decreases v, 2
  {
    match v
    case JArr(items) => ParseSerializedArray(items, rest);
    case JObj(fields) => ParseSerializedObject(fields, rest);
    case _ => ParseSerializedScalar(v, rest);
  }

  lemma ParseSerializedScalar(v: Json, rest: string)
    requires !v.JArr? && !v.JObj?
    requires rest == [] || !IsDigit(rest[0])
    ensures ParseValue(Serialize(v) + rest) == Some(Parsed(v, rest))
  {
    match v
    case JNull => ParseLiteralWord("null", JNull, rest);
    case JBool(b) =>
      if b { ParseLiteralWord("true", v, rest); } else { ParseLiteralWord("false", v, rest); }
    case JNum(n) => ParseSerializedNumber(n, rest);
    case JStr(str) => ParseSerializedString(str, rest);
  }

  /** A keyword followed by any text reads back as its value. */
  lemma ParseLiteralWord(word: string, v: Json, rest: string)
    requires (word, v) in {("null", JNull), ("true", JBool(true)), ("false", JBool(false))}
    ensures ParseValue(word + rest) == Some(Parsed(v, rest))
  {
    var s := word + rest;
    assert s[..|word|] == word && s[|word|..] == rest;
  }

  lemma ParseSerializedString(str: string, rest: string)
    ensures ParseValue(Serialize(JStr(str)) + rest) == Some(Parsed(JStr(str), rest))
  {
    var s := Serialize(JStr(str)) + rest;
    ParseEscaped(str, rest);
    assert s == ['"'] + (Escape(str) + ['"'] + rest);
    assert s[1..] == Escape(str) + ['"'] + rest;
  }

  lemma ParseSerializedNumber(n: int, rest: string)
    requires rest == [] || !IsDigit(rest[0])
    ensures ParseValue(Serialize(JNum(n)) + rest) == Some(Parsed(JNum(n), rest))
  {
    var s := Serialize(JNum(n)) + rest;
    ParseNumberSerialized(n, rest);
    assert s != [] && (s[0] == '-' || IsDigit(s[0]));
  }

  lemma ParseNumberSerialized(n: int, rest: string)
    requires rest == [] || !IsDigit(rest[0])
    ensures Serialize(JNum(n)) != []
    ensures Serialize(JNum(n))[0] == '-' || IsDigit(Serialize(JNum(n))[0])
    ensures ParseNumber(Serialize(JNum(n)) + rest) == Some(Parsed(JNum(n), rest))
  {
    if n < 0 {
      ParseNegative(-n, rest);
    } else {
      ParseNonNegative(n, rest);
    }
  }

  lemma ParseNegative(m: nat, rest: string)
    requires m > 0
    requires rest == [] || !IsDigit(rest[0])
    ensures ParseNumber("-" + NatText(m) + rest) == Some(Parsed(JNum(-(m as int)), rest))
  {
    ParseNatText(m, rest);
    Assoc("-", NatText(m), rest);
    DropFirst('-', NatText(m) + rest);
  }

  lemma ParseNonNegative(n: nat, rest: string)
    requires rest == [] || !IsDigit(rest[0])
    ensures ParseNumber(NatText(n) + rest) == Some(Parsed(JNum(n), rest))
    ensures IsDigit(NatText(n)[0])
  {
    NatTextDigits(n);
    ParseNatText(n, rest);
    assert IsDigit((NatText(n) + rest)[0]);
  }

  lemma {:induction false} ParseSerializedArray(items: seq<Json>, rest: string)
    ensures ParseValue(Serialize(JArr(items)) + rest) == Some(Parsed(JArr(items), rest))
    decreases JArr(items), 1
  {
    Assoc4("[", Elements(items), "]", rest);
    if items == [] {
      ParseEmpty('[', ']', JArr([]), rest);
    } else {
      ParseElementsSerialized(items, rest);
      ElementsSplit(items, rest);
      SerializeStart(items[0]);
      ParseOpenedArray(Elements(items) + "]" + rest, items, rest);
    }
  }

  lemma {:induction false} ParseSerializedObject(fields: seq<Field>, rest: string)
    ensures ParseValue(Serialize(JObj(fields)) + rest) == Some(Parsed(JObj(fields), rest))
    decreases JObj(fields), 1
  {
    Assoc4("{", Members(fields), "}", rest);
    if fields == [] {
      ParseEmpty('{', '}', JObj([]), rest);
    } else {
      ParseMembersSerialized(fields, rest);
      MembersSplit(fields, rest);
      ParseOpenedObject(Members(fields) + "}" + rest, fields, rest);
    }
  }

  /** An empty array or object followed by any text. */
  lemma ParseEmpty(open: char, close: char, v: Json, rest: string)
    requires (open, close, v) == ('[', ']', JArr([])) || (open, close, v) == ('{', '}', JObj([]))
    ensures ParseValue([open, close] + rest) == Some(Parsed(v, rest))
  {
    assert ([open, close] + rest)[2..] == rest;
  }

  /** A non-empty array: the bracket, then elements that read back. */
  lemma ParseOpenedArray(t: string, items: seq<Json>, rest: string)
    requires t != [] && t[0] != ']'
    requires ParseElements(t) == Some(Parsed(items, rest))
    ensures ParseValue("[" + t) == Some(Parsed(JArr(items), rest))
  {
    DropFirst('[', t);
  }

  /** A non-empty object: the brace, then members that read back. */
  lemma ParseOpenedObject(t: string, fields: seq<Field>, rest: string)
    requires t != [] && t[0] != '}'
    requires ParseMembers(t) == Some(Parsed(fields, rest))
    ensures ParseValue("{" + t) == Some(Parsed(JObj(fields), rest))
  {
    DropFirst('{', t);
  }

  /** How `ParseElements` proceeds past one element that reads back. */
  lemma ParseElementsStep(t: string, v: Json, after: string)
    requires ParseValue(t) == Some(Parsed(v, after))
    ensures ParseElements(t) ==
      if after == [] then None
      else if after[0] == ']' then Some(Parsed([v], after[1..]))
      else if after[0] == ',' then
        match ParseElements(after[1..])
        case None => None
        case Some(q) => Some(Parsed([v] + q.value, q.rest))
      else None
  {
  }

  /** The serialized elements followed by the closing bracket, split after the first element. */
  lemma ElementsSplit(items: seq<Json>, rest: string)
    requires items != []
    ensures Elements(items) + "]" + rest == Serialize(items[0]) +
      if |items| == 1 then "]" + rest else "," + (Elements(items[1..]) + "]" + rest)
  {
    if |items| > 1 {
      Regroup(Serialize(items[0]), ",", Elements(items[1..]), "]", rest);
    }
  }

  lemma {:induction false} ParseElementsSerialized(items: seq<Json>, rest: string)
    requires items != []
    ensures ParseElements(Elements(items) + "]" + rest) == Some(Parsed(items, rest))
    decreases items, 0
  {
    var v := items[0];
    ElementsSplit(items, rest);
    if |items| == 1 {
      var after := "]" + rest;
      ParseSerialized(v, after);
      ParseElementsStep(Serialize(v) + after, v, after);
      assert after[1..] == rest;
      assert [v] == items;
    } else {
      var others := Elements(items[1..]) + "]" + rest;
      var after := "," + others;
      ParseSerialized(v, after);
      ParseElementsStep(Serialize(v) + after, v, after);
      assert after[1..] == others;
      ParseElementsSerialized(items[1..], rest);
      assert [v] + items[1..] == items;
    }
  }

  lemma MemberKey(f: Field, after: string)
    ensures var t := Member(f) + after;
      t != [] && t[0] == '"' &&
      ParseChars(t[1..]) == Some(Parsed(f.name, ":" + Serialize(f.value) + after))
  {
    var t := Member(f) + after;
    var tail := ":" + Serialize(f.value) + after;
    assert t == ['"'] + (Escape(f.name) + ['"'] + tail);
    assert t[1..] == Escape(f.name) + ['"'] + tail;
    ParseEscaped(f.name, tail);
  }

  /** How `ParseMembers` proceeds past a member whose key and value read back. */
  lemma ParseMembersStep(t: string, f: Field, tail: string, after: string)
    requires t != [] && t[0] == '"'
    requires ParseChars(t[1..]) == Some(Parsed(f.name, tail))
    requires tail != [] && tail[0] == ':'
    requires ParseValue(tail[1..]) == Some(Parsed(f.value, after))
    ensures ParseMembers(t) ==
      if after == [] then None
      else if after[0] == '}' then Some(Parsed([f], after[1..]))
      else if after[0] == ',' then
        match ParseMembers(after[1..])
        case None => None
        case Some(q) => Some(Parsed([f] + q.value, q.rest))
      else None
  {
  }

  /** The text after one serialized member's key: the colon and the value. */
  lemma ParseMemberValue(f: Field, after: string)
    requires ParseValue(Serialize(f.value) + after) == Some(Parsed(f.value, after))
    ensures var t := Member(f) + after;
      t != [] && t[0] == '"' &&
      ParseChars(t[1..]) == Some(Parsed(f.name, ":" + Serialize(f.value) + after)) &&
      ParseValue((":" + Serialize(f.value) + after)[1..]) == Some(Parsed(f.value, after))
  {
    MemberKey(f, after);
    Assoc(":", Serialize(f.value), after);
    DropFirst(':', Serialize(f.value) + after);
  }

  /** How `ParseMembers` proceeds past one serialized member whose value reads back. */
  lemma ParseMembersHead(f: Field, after: string)
    requires ParseValue(Serialize(f.value) + after) == Some(Parsed(f.value, after))
    ensures ParseMembers(Member(f) + after) ==
      if after == [] then None
      else if after[0] == '}' then Some(Parsed([f], after[1..]))
      else if after[0] == ',' then
        match ParseMembers(after[1..])
        case None => None
        case Some(q) => Some(Parsed([f] + q.value, q.rest))
      else None
  {
    ParseMemberValue(f, after);
    ParseMembersStep(Member(f) + after, f, ":" + Serialize(f.value) + after, after);
  }

  /** Regrouping a concatenation of three texts. */
  lemma Assoc(a: string, b: string, c: string)
    ensures a + b + c == a + (b + c)
  {
  }

  /** Regrouping a concatenation of four texts. */
  lemma Assoc4(a: string, b: string, c: string, d: string)
    ensures a + b + c + d == a + (b + c + d)
  {
  }

  /** Dropping the first character of a text that starts with one. */
  lemma DropFirst(c: char, x: string)
    ensures ([c] + x)[1..] == x
  {
  }

  /** Regrouping a concatenation of five texts. */
  lemma Regroup(a: string, b: string, c: string, d: string, e: string)
    ensures a + b + c + d + e == a + (b + (c + d + e))
  {
  }

  /** The serialized members followed by the closing brace, split after the first member. */
  lemma MembersSplit(fields: seq<Field>, rest: string)
    requires fields != []
    ensures Members(fields) + "}" + rest == Member(fields[0]) +
      if |fields| == 1 then "}" + rest else "," + (Members(fields[1..]) + "}" + rest)
  {
    if |fields| > 1 {
      Regroup(Member(fields[0]), ",", Members(fields[1..]), "}", rest);
    }
  }

  lemma {:induction false} ParseMembersSerialized(fields: seq<Field>, rest: string)
    requires fields != []
    ensures ParseMembers(Members(fields) + "}" + rest) == Some(Parsed(fields, rest))
    decreases fields, 0
  {
    var f := fields[0];
    MembersSplit(fields, rest);
    if |fields| == 1 {
      var after := "}" + rest;
      ParseSerialized(f.value, after);
      ParseMembersHead(f, after);
      assert after[1..] == rest;
      assert [f] == fields;
    } else {
      var others := Members(fields[1..]) + "}" + rest;
      var after := "," + others;
      ParseSerialized(f.value, after);
      ParseMembersHead(f, after);
      assert after[1..] == others;
      ParseMembersSerialized(fields[1..], rest);
      assert [f] + fields[1..] == fields;
    }
  }

  /** `Parse` inverts `Serialize`: what is written is read back unchanged. */
  lemma ParseRoundTrip(v: Json)
    ensures Parse(Serialize(v)) == Some(v)
  {
    ParseSerialized(v, []);
    assert Serialize(v) + [] == Serialize(v);
  }

  /** Two values have the same serialization only when they are equal, so comparing texts compares values. */
  lemma SerializeInjective(a: Json, b: Json)
    ensures Serialize(a) == Serialize(b) <==> a == b
  {
    ParseRoundTrip(a);
    ParseRoundTrip(b);
  }
}
