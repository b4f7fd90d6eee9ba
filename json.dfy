/**
 * The JSON-serialisable values an argument list is made of, the serializer that
 * stands for `JSON.stringify` on them, and the path lookup that stands for the
 * `findByPath` library. A parser for the serializer's output is proved to undo
 * it, so the serializer is injective: distinct values never share a key.
 */
module Json {
  import opened Wrappers

  datatype Value =
    | Null
    | Bool(b: bool)
    | Num(n: int)
    | Str(s: string)
    | Arr(items: seq<Value>)
    | Obj(fields: seq<Field>)

  /** One own property of an object, in insertion order. */
  datatype Field = Field(name: string, value: Value)

  // ---------------------------------------------------------------------------
  // Numbers

  predicate IsDigit(c: char) { '0' <= c <= '9' }

  predicate AllDigits(s: string) { forall i :: 0 <= i < |s| ==> IsDigit(s[i]) }

  function DigitChar(d: nat): (c: char)
    requires d < 10
    ensures IsDigit(c) && c as int - '0' as int == d
  {
    ('0' as int + d) as char
  }

  /** The decimal digits of `n`, most significant first, without leading zeros. */
  function Digits(n: nat): (s: string)
    ensures |s| > 0 && AllDigits(s)
  {
    if n < 10 then [DigitChar(n)] else Digits(n / 10) + [DigitChar(n % 10)]
  }

  /** The number a run of decimal digits denotes. */
  function DigitsValue(s: string): nat
    requires AllDigits(s)
  {
    if s == [] then 0 else DigitsValue(s[..|s| - 1]) * 10 + (s[|s| - 1] as int - '0' as int)
  }

  lemma {:induction false} DigitsValueOfDigits(n: nat)
    ensures DigitsValue(Digits(n)) == n
  {
    if n >= 10 {
      var s := Digits(n);
      assert s[..|s| - 1] == Digits(n / 10);
      DigitsValueOfDigits(n / 10);
    }
  }

  /** The length of the longest prefix of `s` made of digits. */
  function DigitRun(s: string): (k: nat)
    ensures k <= |s| && AllDigits(s[..k])
    ensures k < |s| ==> !IsDigit(s[k])
  {
    if s != [] && IsDigit(s[0]) then
      var k := 1 + DigitRun(s[1..]);
      assert s[..k] == [s[0]] + s[1..][..k - 1];
      k
    else 0
  }

  /** What may follow a number in the serializer's output: nothing, or a non-digit. */
  predicate Delimited(rest: string) { rest == [] || !IsDigit(rest[0]) }

  lemma {:induction false} DigitRunOf(d: string, rest: string)
    requires AllDigits(d) && Delimited(rest)
    ensures DigitRun(d + rest) == |d|
  {
    if d != [] {
      assert (d + rest)[1..] == d[1..] + rest;
      DigitRunOf(d[1..], rest);
    }
  }

  // ---------------------------------------------------------------------------
  // Strings

  /** The body of a string literal: `"` and `\` are written with a backslash before them. */
  function Escape(s: string): string
  {
    if s == [] then []
    else (if s[0] == '"' || s[0] == '\\' then ['\\', s[0]] else [s[0]]) + Escape(s[1..])
  }

  function Quote(s: string): string { "\"" + Escape(s) + "\"" }

  /** Reads a string body up to its closing quote; yields the text and what follows the quote. */
  function ParseChars(s: string): (r: Option<(string, string)>)
    ensures r.Some? ==> |r.value.1| < |s|
  {
    if s == [] then None
    else if s[0] == '"' then Some(([], s[1..]))
    else if s[0] == '\\' then
      if |s| >= 2 && (s[1] == '"' || s[1] == '\\') then
        match ParseChars(s[2..])
        case Some((t, rest)) => Some(([s[1]] + t, rest))
        case None => None
      else None
    else
      match ParseChars(s[1..])
      case Some((t, rest)) => Some(([s[0]] + t, rest))
      case None => None
  }

  lemma {:induction false} ParseCharsOfEscape(s: string, rest: string)
    ensures ParseChars(Escape(s) + "\"" + rest) == Some((s, rest))
  {
    if s == [] {
      assert Escape(s) + "\"" + rest == ['"'] + rest;
    } else {
      ParseCharsOfEscape(s[1..], rest);
      var tail := Escape(s[1..]) + "\"" + rest;
      EscapeStep(s, rest);
      if s[0] == '"' || s[0] == '\\' {
        ParseCharsEscaped(s[0], tail, s[1..], rest);
      } else {
        ParseCharsPlain(s[0], tail, s[1..], rest);
      }
      assert [s[0]] + s[1..] == s;
    }
  }

  /** The escape of the first character, then the rest of the text. */
  lemma EscapeStep(s: string, rest: string)
    requires s != []
    ensures Escape(s) + "\"" + rest
      == (if s[0] == '"' || s[0] == '\\' then ['\\', s[0]] else [s[0]]) + (Escape(s[1..]) + "\"" + rest)
  {
  }

  lemma ParseCharsEscaped(c: char, tail: string, t: string, rest: string)
    requires (c == '"' || c == '\\') && ParseChars(tail) == Some((t, rest))
    ensures ParseChars(['\\', c] + tail) == Some(([c] + t, rest))
  {
    assert (['\\', c] + tail)[2..] == tail;
  }

  lemma ParseCharsPlain(c: char, tail: string, t: string, rest: string)
    requires c != '"' && c != '\\' && ParseChars(tail) == Some((t, rest))
    ensures ParseChars([c] + tail) == Some(([c] + t, rest))
  {
    assert ([c] + tail)[1..] == tail;
  }

  // ---------------------------------------------------------------------------
  // The serializer

  /** `JSON.stringify` on the values of this model. */
  function Stringify(v: Value): string
    decreases v, 1
  {
    match v
    case Null => "null"
    case Bool(b) => if b then "true" else "false"
    case Num(n) => if n < 0 then "-" + Digits(-n) else Digits(n)
    case Str(s) => Quote(s)
    case Arr(items) => "[" + Items(items) + "]"
    case Obj(fields) => "{" + Members(fields) + "}"
  }

  /** The elements of an array, separated by commas. */
  function Items(xs: seq<Value>): string
    decreases xs, 0
  {
    if xs == [] then ""
    else if |xs| == 1 then Stringify(xs[0])
    else Stringify(xs[0]) + "," + Items(xs[1..])
  }

  function Member(f: Field): string
    decreases f, 0
  {
    Quote(f.name) + ":" + Stringify(f.value)
  }

  /** The members of an object, separated by commas. */
  function Members(fs: seq<Field>): string
    decreases fs, 0
  {
    if fs == [] then ""
    else if |fs| == 1 then Member(fs[0])
    else Member(fs[0]) + "," + Members(fs[1..])
  }

  /** The first character of a serialized value never closes an array or an object. */
  lemma FirstChar(v: Value)
    ensures |Stringify(v)| > 0
    ensures Stringify(v)[0] != ']' && Stringify(v)[0] != '}' && Stringify(v)[0] != ','
  {
  }

  // ---------------------------------------------------------------------------
  // The parser that undoes the serializer

  /** Reads one value from the front of `s`; yields it and the text after it. */
  function ParseValue(s: string): (r: Option<(Value, string)>)
    ensures r.Some? ==> |r.value.1| < |s|
    decreases |s|, 1
  {
    if s == [] then None
    else match s[0]
      case 'n' => if |s| >= 4 && s[..4] == "null" then Some((Null, s[4..])) else None
      case 't' => if |s| >= 4 && s[..4] == "true" then Some((Bool(true), s[4..])) else None
      case 'f' => if |s| >= 5 && s[..5] == "false" then Some((Bool(false), s[5..])) else None
      case '"' =>
        (match ParseChars(s[1..])
         case Some((t, rest)) => Some((Str(t), rest))
         case None => None)
      case '[' =>
        if |s| >= 2 && s[1] == ']' then Some((Arr([]), s[2..]))
        else
          (match ParseItems(s[1..])
           case Some((xs, rest)) => Some((Arr(xs), rest))
           case None => None)
      case '{' =>
        if |s| >= 2 && s[1] == '}' then Some((Obj([]), s[2..]))
        else
          (match ParseMembers(s[1..])
           case Some((fs, rest)) => Some((Obj(fs), rest))
           case None => None)
      case '-' =>
        var k := DigitRun(s[1..]);
        if k == 0 then None else Some((Num(-(DigitsValue(s[1..][..k]) as int)), s[1..][k..]))
      case _ =>
        if IsDigit(s[0]) then
          var k := DigitRun(s);
          Some((Num(DigitsValue(s[..k])), s[k..]))
        else None
  }

  /** Reads `value (, value)* ]`: the elements of a non-empty array after its `[`. */
  function ParseItems(s: string): (r: Option<(seq<Value>, string)>)
    ensures r.Some? ==> |r.value.1| < |s|
    decreases |s|, 2
  {
    match ParseValue(s)
    case None => None
    case Some((v, rest)) =>
      if rest != [] && rest[0] == ']' then Some(([v], rest[1..]))
      else if rest != [] && rest[0] == ',' then
        match ParseItems(rest[1..])
        case Some((vs, rest')) => Some(([v] + vs, rest'))
        case None => None
      else None
  }

  /** Reads `"name":value (, "name":value)* }`: the members of a non-empty object after its `{`. */
  function ParseMembers(s: string): (r: Option<(seq<Field>, string)>)
    ensures r.Some? ==> |r.value.1| < |s|
    decreases |s|, 2
  {
    if s == [] || s[0] != '"' then None
    else
      match ParseChars(s[1..])
      case None => None
      case Some((name, afterName)) =>
        if afterName == [] || afterName[0] != ':' then None
        else
          match ParseValue(afterName[1..])
          case None => None
          case Some((v, rest)) =>
            if rest != [] && rest[0] == '}' then Some(([Field(name, v)], rest[1..]))
            else if rest != [] && rest[0] == ',' then
              match ParseMembers(rest[1..])
              case Some((fs, rest')) => Some(([Field(name, v)] + fs, rest'))
              case None => None
            else None
  }

  /** Parsing the serialization of `v` gives back `v` and leaves the rest untouched. */
  lemma {:induction false} ParseStringify(v: Value, rest: string)
    requires Delimited(rest)
    ensures ParseValue(Stringify(v) + rest) == Some((v, rest))
    decreases v, 1
  {
    match v
    case Null => ParseLiteral(v, rest);
    case Bool(_) => ParseLiteral(v, rest);
    case Num(n) => ParseNum(n, rest);
    case Str(t) => ParseStr(t, rest);
    case Arr(xs) =>
      if xs == [] {
        ParseEmpty(v, rest);
      } else {
        ParseItemsOf(xs, rest);
        ParseArr(xs, rest);
      }
    case Obj(fs) =>
      if fs == [] {
        ParseEmpty(v, rest);
      } else {
        ParseMembersOf(fs, rest);
        ParseObj(fs, rest);
      }
  }

  lemma ParseLiteral(v: Value, rest: string)
    requires v.Null? || v.Bool?
    ensures ParseValue(Stringify(v) + rest) == Some((v, rest))
  {
    var s := Stringify(v) + rest;
    if v.Null? {
      assert s[0] == 'n' && s[..4] == "null" && s[4..] == rest;
    } else if v.b {
      assert s[0] == 't' && s[..4] == "true" && s[4..] == rest;
    } else {
      assert s[0] == 'f' && s[..5] == "false" && s[5..] == rest;
    }
  }

  lemma ParseEmpty(v: Value, rest: string)
    requires v == Arr([]) || v == Obj([])
    ensures ParseValue(Stringify(v) + rest) == Some((v, rest))
  {
    var s := Stringify(v) + rest;
    assert s[2..] == rest;
  }

  lemma ParseNum(n: int, rest: string)
    requires Delimited(rest)
    ensures ParseValue(Stringify(Num(n)) + rest) == Some((Num(n), rest))
  {
    if n < 0 {
      assert Stringify(Num(n)) + rest == ['-'] + (Digits(-n) + rest);
      ParseNegative(n, rest);
    } else {
      ParseNonNegative(n, rest);
    }
  }

  /** A run of digits, then a delimiter: the digits are split off exactly. */
  lemma ReadDigits(d: string, rest: string)
    requires AllDigits(d) && Delimited(rest)
    ensures DigitRun(d + rest) == |d| && (d + rest)[..|d|] == d && (d + rest)[|d|..] == rest
  {
    DigitRunOf(d, rest);
  }

  lemma ParseNonNegative(n: nat, rest: string)
    requires Delimited(rest)
    ensures ParseValue(Digits(n) + rest) == Some((Num(n), rest))
  {
    var d := Digits(n);
    ReadDigits(d, rest);
    DigitsValueOfDigits(n);
    assert (d + rest)[0] == d[0];
  }

  lemma ParseNegative(n: int, rest: string)
    requires n < 0 && Delimited(rest)
    ensures ParseValue(['-'] + (Digits(-n) + rest)) == Some((Num(n), rest))
  {
    var d := Digits(-n);
    ReadDigits(d, rest);
    DigitsValueOfDigits(-n);
    var s := ['-'] + (d + rest);
    assert s[0] == '-' && s[1..] == d + rest;
  }

  lemma ParseStr(t: string, rest: string)
    ensures ParseValue(Stringify(Str(t)) + rest) == Some((Str(t), rest))
  {
    var s := Stringify(Str(t)) + rest;
    assert s[0] == '"' && s[1..] == Escape(t) + "\"" + rest;
    ParseCharsOfEscape(t, rest);
  }

  lemma ParseArr(xs: seq<Value>, rest: string)
    requires xs != []
    requires ParseItems(Items(xs) + "]" + rest) == Some((xs, rest))
    ensures ParseValue(Stringify(Arr(xs)) + rest) == Some((Arr(xs), rest))
  {
    Enclose('[', Items(xs), ']', rest);
    ItemsFirstChar(xs);
    ParseOpenArr(Items(xs) + "]" + rest, xs, rest);
  }

  lemma ParseObj(fs: seq<Field>, rest: string)
    requires fs != []
    requires ParseMembers(Members(fs) + "}" + rest) == Some((fs, rest))
    ensures ParseValue(Stringify(Obj(fs)) + rest) == Some((Obj(fs), rest))
  {
    Enclose('{', Members(fs), '}', rest);
    MembersFirstChar(fs);
    ParseOpenObj(Members(fs) + "}" + rest, fs, rest);
  }

  /** Regrouping of a bracketed text followed by more text; over plain strings so that it stays cheap. */
  lemma Enclose(open: char, a: string, close: char, rest: string)
    ensures [open] + a + [close] + rest == [open] + (a + [close] + rest)
  {
  }

  /** An array whose text after `[` is not `]` is read by `ParseItems`. */
  lemma ParseOpenArr(body: string, xs: seq<Value>, rest: string)
    requires body != [] && body[0] != ']' && ParseItems(body) == Some((xs, rest))
    ensures ParseValue(['['] + body) == Some((Arr(xs), rest))
  {
    var s := ['['] + body;
    assert s[0] == '[' && s[1..] == body && s[1] == body[0];
  }

  /** An object whose text after `{` is not `}` is read by `ParseMembers`. */
  lemma ParseOpenObj(body: string, fs: seq<Field>, rest: string)
    requires body != [] && body[0] != '}' && ParseMembers(body) == Some((fs, rest))
    ensures ParseValue(['{'] + body) == Some((Obj(fs), rest))
  {
    var s := ['{'] + body;
    assert s[0] == '{' && s[1..] == body && s[1] == body[0];
  }

  lemma ItemsFirstChar(xs: seq<Value>)
    requires xs != []
    ensures |Items(xs)| > 0 && Items(xs)[0] == Stringify(xs[0])[0]
  {
    FirstChar(xs[0]);
  }

  lemma MembersFirstChar(fs: seq<Field>)
    requires fs != []
    ensures |Members(fs)| > 0 && Members(fs)[0] == '"'
  {
  }

  /** Regrouping of the text around one element; stated over plain strings so that it stays cheap. */
  lemma Regroup(a: string, sep: char, b: string, close: char, rest: string)
    ensures a + [sep] + b + [close] + rest == a + ([sep] + b + [close] + rest)
    ensures ([sep] + b + [close] + rest)[1..] == b + [close] + rest
  {
  }

  lemma ItemsSplit(xs: seq<Value>, rest: string)
    requires |xs| > 1
    ensures Items(xs) + "]" + rest == Stringify(xs[0]) + ("," + Items(xs[1..]) + "]" + rest)
    ensures ("," + Items(xs[1..]) + "]" + rest)[1..] == Items(xs[1..]) + "]" + rest
  {
    assert Items(xs) == Stringify(xs[0]) + "," + Items(xs[1..]);
    Regroup(Stringify(xs[0]), ',', Items(xs[1..]), ']', rest);
  }

  lemma ItemsLastSplit(xs: seq<Value>, rest: string)
    requires |xs| == 1
    ensures Items(xs) + "]" + rest == Stringify(xs[0]) + ("]" + rest)
    ensures ("]" + rest)[1..] == rest
  {
    assert Items(xs) == Stringify(xs[0]);
  }

  lemma ParseItemsLast(s: string, xs: seq<Value>, tail: string, rest: string)
    requires |xs| == 1 && ParseValue(s) == Some((xs[0], tail)) && tail != [] && tail[0] == ']' && tail[1..] == rest
    ensures ParseItems(s) == Some((xs, rest))
  {
    assert [xs[0]] == xs;
  }

  lemma ParseItemsMore(s: string, xs: seq<Value>, tail: string, rest: string)
    requires |xs| > 1 && ParseValue(s) == Some((xs[0], tail)) && tail != [] && tail[0] == ','
    requires ParseItems(tail[1..]) == Some((xs[1..], rest))
    ensures ParseItems(s) == Some((xs, rest))
  {
    assert [xs[0]] + xs[1..] == xs;
  }

  lemma ParseMembersLast(s: string, fs: seq<Field>, afterName: string, tail: string, rest: string)
    requires |fs| == 1 && s != [] && s[0] == '"' && ParseChars(s[1..]) == Some((fs[0].name, afterName))
    requires afterName != [] && afterName[0] == ':' && ParseValue(afterName[1..]) == Some((fs[0].value, tail))
    requires tail != [] && tail[0] == '}' && tail[1..] == rest
    ensures ParseMembers(s) == Some((fs, rest))
  {
    assert [Field(fs[0].name, fs[0].value)] == fs;
  }

  lemma ParseMembersMore(s: string, fs: seq<Field>, afterName: string, tail: string, rest: string)
    requires |fs| > 1 && s != [] && s[0] == '"' && ParseChars(s[1..]) == Some((fs[0].name, afterName))
    requires afterName != [] && afterName[0] == ':' && ParseValue(afterName[1..]) == Some((fs[0].value, tail))
    requires tail != [] && tail[0] == ',' && ParseMembers(tail[1..]) == Some((fs[1..], rest))
    ensures ParseMembers(s) == Some((fs, rest))
  {
    assert [Field(fs[0].name, fs[0].value)] + fs[1..] == fs;
  }

  lemma {:induction false} ParseItemsOf(xs: seq<Value>, rest: string)
    requires xs != []
    ensures ParseItems(Items(xs) + "]" + rest) == Some((xs, rest))
    decreases xs, 0
  {
    var s := Items(xs) + "]" + rest;
    if |xs| == 1 {
      var tail := "]" + rest;
      ItemsLastSplit(xs, rest);
      ParseStringify(xs[0], tail);
      ParseItemsLast(s, xs, tail, rest);
    } else {
      var tail := "," + Items(xs[1..]) + "]" + rest;
      ItemsSplit(xs, rest);
      ParseStringify(xs[0], tail);
      ParseItemsOf(xs[1..], rest);
      ParseItemsMore(s, xs, tail, rest);
    }
  }

  lemma MembersSplit(fs: seq<Field>, rest: string)
    requires fs != []
    ensures var tail := if |fs| == 1 then "}" + rest else "," + Members(fs[1..]) + "}" + rest;
      var afterName := ":" + Stringify(fs[0].value) + tail;
      && Members(fs) + "}" + rest == ['"'] + (Escape(fs[0].name) + "\"" + afterName)
      && (Members(fs) + "}" + rest)[1..] == Escape(fs[0].name) + "\"" + afterName
      && afterName[1..] == Stringify(fs[0].value) + tail
    ensures |fs| == 1 ==> ("}" + rest)[1..] == rest
    ensures |fs| > 1 ==> ("," + Members(fs[1..]) + "}" + rest)[1..] == Members(fs[1..]) + "}" + rest
  {
    var f := fs[0];
    var v := Stringify(f.value);
    var tail := if |fs| == 1 then "}" + rest else "," + Members(fs[1..]) + "}" + rest;
    if |fs| == 1 {
      assert Members(fs) == Member(f);
    } else {
      assert Members(fs) == Member(f) + "," + Members(fs[1..]);
      Regroup(Member(f), ',', Members(fs[1..]), '}', rest);
    }
    assert Members(fs) + "}" + rest == Member(f) + tail;
    MemberSplit(f.name, v, tail);
  }

  lemma MemberSplit(name: string, v: string, tail: string)
    ensures Quote(name) + ":" + v + tail == ['"'] + (Escape(name) + "\"" + (":" + v + tail))
    ensures (['"'] + (Escape(name) + "\"" + (":" + v + tail)))[1..] == Escape(name) + "\"" + (":" + v + tail)
    ensures (":" + v + tail)[1..] == v + tail
  {
  }

  lemma {:induction false} ParseMembersOf(fs: seq<Field>, rest: string)
    requires fs != []
    ensures ParseMembers(Members(fs) + "}" + rest) == Some((fs, rest))
    decreases fs, 0
  {
    var f := fs[0];
    var s := Members(fs) + "}" + rest;
    var tail := if |fs| == 1 then "}" + rest else "," + Members(fs[1..]) + "}" + rest;
    var afterName := ":" + Stringify(f.value) + tail;
    MembersSplit(fs, rest);
    ParseCharsOfEscape(f.name, afterName);
    ParseStringify(f.value, tail);
    if |fs| == 1 {
      ParseMembersLast(s, fs, afterName, tail, rest);
    } else {
      ParseMembersOf(fs[1..], rest);
      ParseMembersMore(s, fs, afterName, tail, rest);
    }
  }

  /** Distinct values never serialize alike. */
  lemma StringifyInjective(a: Value, b: Value)
    ensures Stringify(a) == Stringify(b) <==> a == b
  {
    ParseStringify(a, []);
    ParseStringify(b, []);
    assert Stringify(a) + [] == Stringify(a);
    assert Stringify(b) + [] == Stringify(b);
  }

  // ---------------------------------------------------------------------------
  // findByPath

  /** A property path, one name per segment: `["2", "id"]` stands for the path `"2.id"`. */
  type Path = seq<string>

  /** The array index a property name denotes: a decimal numeral without leading zeros. */
  function IndexOf(name: string): Option<nat>
  {
    if name != [] && AllDigits(name) && (|name| == 1 || name[0] != '0') then Some(DigitsValue(name)) else None
  }

  /** The value of the first member called `name`. */
  function Lookup(fields: seq<Field>, name: string): Option<Value>
  {
    if fields == [] then None
    else if fields[0].name == name then Some(fields[0].value)
    else Lookup(fields[1..], name)
  }

  /** One property step; `undefined` (None) when the value has no such property. */
  function Property(v: Value, name: string): Option<Value>
  {
    match v
    case Arr(items) =>
      (match IndexOf(name)
       case Some(i) => if i < |items| then Some(items[i]) else None
       case None => None)
    case Obj(fields) => Lookup(fields, name)
    case _ => None
  }

  /** `findByPath(value, path)`: follows the path one property at a time; `undefined` once a step misses. */
  function FindByPath(v: Value, path: Path): Option<Value>
    decreases |path|
  {
    if path == [] then Some(v)
    else
      match Property(v, path[0])
      case Some(w) => FindByPath(w, path[1..])
      case None => None
  }

  /** Following `p + q` is following `p`, then `q` from where it led; a miss on `p` is a miss. */
  lemma {:induction false} FindByPathConcat(v: Value, p: Path, q: Path)
    ensures FindByPath(v, p + q) == match FindByPath(v, p) case Some(w) => FindByPath(w, q) case None => None
    decreases |p|
  {
    if p == [] {
      assert p + q == q;
    } else {
      assert (p + q)[0] == p[0] && (p + q)[1..] == p[1..] + q;
      match Property(v, p[0])
      case Some(w) => FindByPathConcat(w, p[1..], q);
      case None =>
    }
  }
}
