/**
  The one-pass nesting guard on request bodies, against the JSON grammar of sections 2 to
  7 of RFC 8259.
 */
module DepthGuard {
  import opened Wrappers

  type Byte = b: int | 0 <= b < 256

  /** One more than MAX_JSON_DEPTH. */
  const MAX_NESTING := 25

  const QUOTE: Byte := 34
  const BACKSLASH: Byte := 92
  const COMMA: Byte := 44
  const COLON: Byte := 58
  const OPEN_ARRAY: Byte := 91
  const CLOSE_ARRAY: Byte := 93
  const OPEN_OBJECT: Byte := 123
  const CLOSE_OBJECT: Byte := 125

  function Max(a: int, b: int): int { if a < b then b else a }

  // ------------------------------------------------------------------ the scan

  datatype Scan = Scan(depth: int, quoted: bool, escaped: bool)

  function After(s: Scan, b: Byte): Scan {
    if s.quoted then
      if s.escaped then s.(escaped := false)
      else if b == BACKSLASH then s.(escaped := true)
      else if b == QUOTE then s.(quoted := false)
      else s
    else if b == QUOTE then s.(quoted := true)
    else if b == OPEN_ARRAY || b == OPEN_OBJECT then s.(depth := s.depth + 1)
    else if b == CLOSE_ARRAY || b == CLOSE_OBJECT then s.(depth := s.depth - 1)
    else s
  }

  function Walk(s: Scan, bytes: seq<Byte>): Scan
    decreases |bytes|
  {
    if bytes == [] then s else Walk(After(s, bytes[0]), bytes[1..])
  }

  /** The greatest depth met on the way. */
  function Peak(s: Scan, bytes: seq<Byte>): int
    decreases |bytes|
  {
    if bytes == [] then s.depth else Max(s.depth, Peak(After(s, bytes[0]), bytes[1..]))
  }

  const Start := Scan(0, false, false)

  /** Stops at the first bracket that goes too deep. */
  method DepthExceeded(body: seq<Byte>) returns (exceeded: bool)
    ensures exceeded <==> Peak(Start, body) > MAX_NESTING
  {
    var depth, quoted, escaped := 0, false, false;
    for i := 0 to |body|
      invariant depth <= MAX_NESTING
      invariant Peak(Start, body) > MAX_NESTING <==> Peak(Scan(depth, quoted, escaped), body[i..]) > MAX_NESTING
    {
      var character := body[i];
      assert body[i..][0] == character && body[i..][1..] == body[i + 1..];
      if quoted {
        if escaped {
          escaped := false;
        } else if character == BACKSLASH {
          escaped := true;
        } else if character == QUOTE {
          quoted := false;
        }
      } else if character == QUOTE {
        quoted := true;
      } else if character == OPEN_ARRAY || character == OPEN_OBJECT {
        depth := depth + 1;
        if depth > MAX_NESTING {
          PeakAtLeast(Scan(depth, quoted, escaped), body[i + 1..]);
          return true;
        }
      } else if character == CLOSE_ARRAY || character == CLOSE_OBJECT {
        depth := depth - 1;
      }
    }
    exceeded := false;
  }

  lemma PeakAtLeast(s: Scan, bytes: seq<Byte>)
    ensures Peak(s, bytes) >= s.depth
  {
  }

  lemma {:induction false} WalkAppend(s: Scan, a: seq<Byte>, b: seq<Byte>)
    ensures Walk(s, a + b) == Walk(Walk(s, a), b)
    ensures Peak(s, a + b) == Max(Peak(s, a), Peak(Walk(s, a), b))
    decreases |a|
  {
    if a == [] {
      assert a + b == b;
      PeakAtLeast(s, b);
    } else {
      assert (a + b)[1..] == a[1..] + b;
      WalkAppend(After(s, a[0]), a[1..], b);
    }
  }

  // ------------------------------------------------------------------ texts of JSON values

  predicate Blank(ws: seq<Byte>) {
    forall b | b in ws :: b in {32, 9, 10, 13}
  }

  predicate Digits(d: seq<Byte>) {
    d != [] && forall b | b in d :: 48 <= b <= 57
  }

  predicate Hex(b: Byte) {
    48 <= b <= 57 || 65 <= b <= 70 || 97 <= b <= 102
  }

  /** One character of a string: as it is, after a backslash, or by its code. */
  datatype Unit = Plain(b: Byte) | Escape(c: Byte) | Code(h1: Byte, h2: Byte, h3: Byte, h4: Byte)

  predicate ValidUnit(u: Unit) {
    match u
    case Plain(b) => b >= 32 && b != QUOTE && b != BACKSLASH
    case Escape(c) => c in {34, 92, 47, 98, 102, 110, 114, 116}
    case Code(h1, h2, h3, h4) => Hex(h1) && Hex(h2) && Hex(h3) && Hex(h4)
  }

  function UnitText(u: Unit): seq<Byte> {
    match u
    case Plain(b) => [b]
    case Escape(c) => [BACKSLASH, c]
    case Code(h1, h2, h3, h4) => [BACKSLASH, 117, h1, h2, h3, h4]
  }

  function UnitsText(units: seq<Unit>): seq<Byte> {
    if units == [] then [] else UnitText(units[0]) + UnitsText(units[1..])
  }

  function StringText(units: seq<Unit>): seq<Byte> {
    [QUOTE] + UnitsText(units) + [QUOTE]
  }

  /** A value as it is written; the fields called before, after and inner are whitespace. */
  datatype Value =
    | Word(word: seq<Byte>)
    | Number(sign: seq<Byte>, whole: seq<Byte>, fraction: seq<Byte>, exponent: seq<Byte>)
    | String(units: seq<Unit>)
    | Array(inner: seq<Byte>, items: Items)
    | Object(inner: seq<Byte>, members: Members)

  datatype Items = NoItems | Item(before: seq<Byte>, value: Value, after: seq<Byte>, rest: Items)

  datatype Members =
    | NoMembers
    | Member(before: seq<Byte>, name: seq<Unit>, named: seq<Byte>, lead: seq<Byte>, value: Value, after: seq<Byte>, rest: Members)

  const WORDS: set<seq<Byte>> := {[110, 117, 108, 108], [116, 114, 117, 101], [102, 97, 108, 115, 101]}

  predicate ValidNumber(sign: seq<Byte>, whole: seq<Byte>, fraction: seq<Byte>, exponent: seq<Byte>) {
    && (sign == [] || sign == [45])
    && Digits(whole) && (whole[0] == 48 ==> |whole| == 1)
    && (fraction == [] || (fraction[0] == 46 && Digits(fraction[1..])))
    && (exponent == []
        || (exponent[0] in {69, 101}
            && (Digits(exponent[1..]) || (|exponent| > 1 && exponent[1] in {43, 45} && Digits(exponent[2..])))))
  }

  predicate ValidValue(v: Value) {
    match v
    case Word(word) => word in WORDS
    case Number(sign, whole, fraction, exponent) => ValidNumber(sign, whole, fraction, exponent)
    case String(units) => forall u | u in units :: ValidUnit(u)
    case Array(inner, items) => Blank(inner) && ValidItems(items)
    case Object(inner, members) => Blank(inner) && ValidMembers(members)
  }

  predicate ValidItems(items: Items) {
    match items
    case NoItems => true
    case Item(before, value, after, rest) => Blank(before) && ValidValue(value) && Blank(after) && ValidItems(rest)
  }

  predicate ValidMembers(members: Members) {
    match members
    case NoMembers => true
    case Member(before, name, named, lead, value, after, rest) =>
      && Blank(before) && (forall u | u in name :: ValidUnit(u)) && Blank(named) && Blank(lead)
      && ValidValue(value) && Blank(after) && ValidMembers(rest)
  }

  function Text(v: Value): seq<Byte> {
    match v
    case Word(word) => word
    case Number(sign, whole, fraction, exponent) => sign + whole + fraction + exponent
    case String(units) => StringText(units)
    case Array(inner, items) => [OPEN_ARRAY] + inner + ItemsText(items, true) + [CLOSE_ARRAY]
    case Object(inner, members) => [OPEN_OBJECT] + inner + MembersText(members, true) + [CLOSE_OBJECT]
  }

  function ItemsText(items: Items, first: bool): seq<Byte> {
    match items
    case NoItems => []
    case Item(before, value, after, rest) =>
      (if first then [] else [COMMA]) + before + Text(value) + after + ItemsText(rest, false)
  }

  function MembersText(members: Members, first: bool): seq<Byte> {
    match members
    case NoMembers => []
    case Member(before, name, named, lead, value, after, rest) =>
      (if first then [] else [COMMA]) + before + StringText(name) + named + [COLON] + lead + Text(value) + after
      + MembersText(rest, false)
  }

  /** How many containers the innermost value is in, its own brackets included. */
  function Nesting(v: Value): nat {
    match v
    case Array(_, items) => 1 + ItemsNesting(items)
    case Object(_, members) => 1 + MembersNesting(members)
    case _ => 0
  }

  function ItemsNesting(items: Items): nat {
    match items
    case NoItems => 0
    case Item(_, value, _, rest) => Max(Nesting(value), ItemsNesting(rest))
  }

  function MembersNesting(members: Members): nat {
    match members
    case NoMembers => 0
    case Member(_, _, _, _, value, _, rest) => Max(Nesting(value), MembersNesting(rest))
  }

  // ------------------------------------------------------------------ the scan over a text

  /** Outside strings, at this depth. */
  function At(depth: int): Scan {
    Scan(depth, false, false)
  }

  /** The text leaves the depth as it was and goes exactly this far below it. */
  ghost predicate Sinks(bytes: seq<Byte>, deep: nat) {
    forall d: int :: Walk(At(d), bytes) == At(d) && Peak(At(d), bytes) == d + deep
  }

  predicate Loud(b: Byte) {
    b == QUOTE || b == OPEN_ARRAY || b == CLOSE_ARRAY || b == OPEN_OBJECT || b == CLOSE_OBJECT
  }

  predicate Silent(bytes: seq<Byte>) {
    forall b | b in bytes :: !Loud(b)
  }

  lemma {:induction false} SilentWalk(bytes: seq<Byte>, d: int)
    requires Silent(bytes)
    ensures Walk(At(d), bytes) == At(d) && Peak(At(d), bytes) == d
  {
    if bytes != [] {
      assert bytes == [bytes[0]] + bytes[1..];
      assert bytes[0] in bytes && !Loud(bytes[0]) && After(At(d), bytes[0]) == At(d);
      SilentWalk(bytes[1..], d);
    }
  }

  lemma SilentSinks(bytes: seq<Byte>)
    requires Silent(bytes)
    ensures Sinks(bytes, 0)
  {
    forall d: int ensures Walk(At(d), bytes) == At(d) && Peak(At(d), bytes) == d {
      SilentWalk(bytes, d);
    }
  }

  lemma SinksAppend(a: seq<Byte>, b: seq<Byte>, deep: nat, too: nat)
    requires Sinks(a, deep) && Sinks(b, too)
    ensures Sinks(a + b, Max(deep, too))
  {
    forall d: int ensures Walk(At(d), a + b) == At(d) && Peak(At(d), a + b) == d + Max(deep, too) {
      WalkAppend(At(d), a, b);
    }
  }

  /** A bracket pair around it sinks one further. */
  lemma SinksInBrackets(open: Byte, bytes: seq<Byte>, close: Byte, deep: nat)
    requires open in {OPEN_ARRAY, OPEN_OBJECT} && close in {CLOSE_ARRAY, CLOSE_OBJECT} && Sinks(bytes, deep)
    ensures Sinks([open] + bytes + [close], deep + 1)
  {
    forall d: int
      ensures Walk(At(d), [open] + bytes + [close]) == At(d) && Peak(At(d), [open] + bytes + [close]) == d + deep + 1
    {
      BracketWalk(open, d);
      BracketWalk(close, d + 1);
      WalkAppend(At(d), [open], bytes);
      WalkAppend(At(d), [open] + bytes, [close]);
      assert Walk(At(d + 1), bytes) == At(d + 1);
    }
  }

  lemma BracketWalk(bracket: Byte, d: int)
    requires bracket in {OPEN_ARRAY, OPEN_OBJECT, CLOSE_ARRAY, CLOSE_OBJECT}
    ensures var to := if bracket in {OPEN_ARRAY, OPEN_OBJECT} then d + 1 else d - 1;
      Walk(At(d), [bracket]) == At(to) && Peak(At(d), [bracket]) == Max(d, to)
  {
    assert [bracket][1..] == [];
  }

  lemma UnitWalk(u: Unit, d: int)
    requires ValidUnit(u)
    ensures Walk(Scan(d, true, false), UnitText(u)) == Scan(d, true, false) && Peak(Scan(d, true, false), UnitText(u)) == d
  {
    var inside := Scan(d, true, false);
    match u
    case Plain(b) =>
      assert [b][1..] == [];
    case Escape(c) =>
      assert [BACKSLASH, c][1..] == [c] && [c][1..] == [];
      assert After(inside, BACKSLASH) == Scan(d, true, true) && After(Scan(d, true, true), c) == inside;
      assert Walk(Scan(d, true, true), [c]) == inside && Peak(Scan(d, true, true), [c]) == d;
    case Code(h1, h2, h3, h4) =>
      HexWalk([h1, h2, h3, h4], d);
      assert [BACKSLASH, 117, h1, h2, h3, h4][1..] == [117, h1, h2, h3, h4];
      assert [117, h1, h2, h3, h4][1..] == [h1, h2, h3, h4];
  }

  lemma {:induction false} HexWalk(digits: seq<Byte>, d: int)
    requires forall b | b in digits :: Hex(b)
    ensures Walk(Scan(d, true, false), digits) == Scan(d, true, false) && Peak(Scan(d, true, false), digits) == d
  {
    if digits != [] {
      assert digits[0] in digits;
      HexWalk(digits[1..], d);
    }
  }

  lemma {:induction false} UnitsWalk(units: seq<Unit>, d: int)
    requires forall u | u in units :: ValidUnit(u)
    ensures Walk(Scan(d, true, false), UnitsText(units)) == Scan(d, true, false)
    ensures Peak(Scan(d, true, false), UnitsText(units)) == d
  {
    if units != [] {
      assert units[0] in units;
      UnitWalk(units[0], d);
      UnitsWalk(units[1..], d);
      WalkAppend(Scan(d, true, false), UnitText(units[0]), UnitsText(units[1..]));
    }
  }

  /** Brackets and escaped quotes inside a string count for nothing. */
  lemma StringSinks(units: seq<Unit>)
    requires forall u | u in units :: ValidUnit(u)
    ensures Sinks(StringText(units), 0)
  {
    forall d: int ensures Walk(At(d), StringText(units)) == At(d) && Peak(At(d), StringText(units)) == d {
      UnitsWalk(units, d);
      assert [QUOTE][1..] == [];
      WalkAppend(At(d), [QUOTE], UnitsText(units));
      WalkAppend(At(d), [QUOTE] + UnitsText(units), [QUOTE]);
    }
  }

  lemma NumberSilent(sign: seq<Byte>, whole: seq<Byte>, fraction: seq<Byte>, exponent: seq<Byte>)
    requires ValidNumber(sign, whole, fraction, exponent)
    ensures Silent(sign + whole + fraction + exponent)
  {
    assert fraction != [] ==> fraction == [fraction[0]] + fraction[1..];
    if exponent != [] {
      if Digits(exponent[1..]) {
        assert exponent == [exponent[0]] + exponent[1..];
      } else {
        assert exponent == [exponent[0], exponent[1]] + exponent[2..];
      }
    }
  }

  lemma HeadSinks(start: seq<Byte>, name: seq<Unit>, named: seq<Byte>, lead: seq<Byte>)
    requires Silent(start) && (forall u | u in name :: ValidUnit(u)) && Blank(named) && Blank(lead)
    ensures Sinks(start + StringText(name) + named + [COLON] + lead, 0)
  {
    StringSinks(name);
    SilentSinks(start);
    SilentSinks(named);
    SilentSinks([COLON]);
    SilentSinks(lead);
    SinksAppend(start, StringText(name), 0, 0);
    SinksAppend(start + StringText(name), named, 0, 0);
    SinksAppend(start + StringText(name) + named, [COLON], 0, 0);
    SinksAppend(start + StringText(name) + named + [COLON], lead, 0, 0);
  }

  lemma ContainerSinks(open: Byte, inner: seq<Byte>, content: seq<Byte>, close: Byte, deep: nat)
    requires open in {OPEN_ARRAY, OPEN_OBJECT} && close in {CLOSE_ARRAY, CLOSE_OBJECT}
    requires Blank(inner) && Sinks(content, deep)
    ensures Sinks([open] + inner + content + [close], deep + 1)
  {
    SilentSinks(inner);
    SinksAppend(inner, content, 0, deep);
    SinksInBrackets(open, inner + content, close, deep);
    assert [open] + inner + content + [close] == [open] + (inner + content) + [close];
  }

  lemma {:induction false} ValueSinks(v: Value)
    requires ValidValue(v)
    ensures Sinks(Text(v), Nesting(v))
  {
    match v
    case Word(word) => SilentSinks(word);
    case Number(sign, whole, fraction, exponent) =>
      NumberSilent(sign, whole, fraction, exponent);
      SilentSinks(Text(v));
    case String(units) => StringSinks(units);
    case Array(inner, items) =>
      ItemsSink(items, true);
      ContainerSinks(OPEN_ARRAY, inner, ItemsText(items, true), CLOSE_ARRAY, ItemsNesting(items));
    case Object(inner, members) =>
      MembersSink(members, true);
      ContainerSinks(OPEN_OBJECT, inner, MembersText(members, true), CLOSE_OBJECT, MembersNesting(members));
  }

  lemma {:induction false} ItemsSink(items: Items, first: bool)
    requires ValidItems(items)
    ensures Sinks(ItemsText(items, first), ItemsNesting(items))
  {
    match items
    case NoItems => SilentSinks([]);
    case Item(before, value, after, rest) =>
      ValueSinks(value);
      ItemsSink(rest, false);
      var lead := (if first then [] else [COMMA]) + before;
      SilentSinks(lead);
      SilentSinks(after);
      SinksAppend(lead, Text(value), 0, Nesting(value));
      SinksAppend(lead + Text(value), after, Nesting(value), 0);
      SinksAppend(lead + Text(value) + after, ItemsText(rest, false), Nesting(value), ItemsNesting(rest));
  }

  lemma {:induction false} MembersSink(members: Members, first: bool)
    requires ValidMembers(members)
    ensures Sinks(MembersText(members, first), MembersNesting(members))
  {
    match members
    case NoMembers => SilentSinks([]);
    case Member(before, name, named, lead, value, after, rest) =>
      ValueSinks(value);
      MembersSink(rest, false);
      var start := (if first then [] else [COMMA]) + before;
      var head := start + StringText(name) + named + [COLON] + lead;
      HeadSinks(start, name, named, lead);
      SilentSinks(after);
      SinksAppend(head, Text(value), 0, Nesting(value));
      SinksAppend(head + Text(value), after, Nesting(value), 0);
      SinksAppend(head + Text(value) + after, MembersText(rest, false), Nesting(value), MembersNesting(rest));
  }

  /**
    For every JSON value and every text of it, with any whitespace, escapes and brackets
    in strings, the guard refuses exactly the texts nested deeper than one more than 24.
   */
  lemma GuardIsNesting(v: Value, before: seq<Byte>, after: seq<Byte>)
    requires ValidValue(v) && Blank(before) && Blank(after)
    ensures Peak(Start, before + Text(v) + after) > MAX_NESTING <==> Nesting(v) > 24 + 1
  {
    ValueSinks(v);
    SilentSinks(before);
    SilentSinks(after);
    SinksAppend(before, Text(v), 0, Nesting(v));
    SinksAppend(before + Text(v), after, Nesting(v), 0);
    assert Start == At(0);
  }

  // ------------------------------------------------------------------ arbitrary bytes

  /** The brackets open outside strings, until a closer does not match the innermost. */
  datatype Lexer = Lexer(stack: seq<Byte>, quoted: bool, escaped: bool, broken: bool)

  predicate Closes(open: Byte, close: Byte) {
    (open == OPEN_ARRAY && close == CLOSE_ARRAY) || (open == OPEN_OBJECT && close == CLOSE_OBJECT)
  }

  function Lex(l: Lexer, b: Byte): Lexer {
    if l.broken then l
    else if l.quoted then
      if l.escaped then l.(escaped := false)
      else if b == BACKSLASH then l.(escaped := true)
      else if b == QUOTE then l.(quoted := false)
      else l
    else if b == QUOTE then l.(quoted := true)
    else if b == OPEN_ARRAY || b == OPEN_OBJECT then l.(stack := l.stack + [b])
    else if b == CLOSE_ARRAY || b == CLOSE_OBJECT then
      if l.stack != [] && Closes(l.stack[|l.stack| - 1], b) then l.(stack := l.stack[..|l.stack| - 1])
      else l.(broken := true)
    else l
  }

  function Lexed(l: Lexer, bytes: seq<Byte>): Lexer
    decreases |bytes|
  {
    if bytes == [] then l else Lexed(Lex(l, bytes[0]), bytes[1..])
  }

  const Fresh := Lexer([], false, false, false)

  lemma {:induction false} BrokenStays(l: Lexer, bytes: seq<Byte>)
    requires l.broken
    ensures Lexed(l, bytes).broken
    decreases |bytes|
  {
    if bytes != [] {
      BrokenStays(l, bytes[1..]);
    }
  }

  /** Until the first unmatched closer the counter is the height of the stack. */
  lemma {:induction false} CounterIsHeight(l: Lexer, bytes: seq<Byte>)
    requires !l.broken && !Lexed(l, bytes).broken
    ensures var m := Lexed(l, bytes);
      Walk(Scan(|l.stack|, l.quoted, l.escaped), bytes) == Scan(|m.stack|, m.quoted, m.escaped)
    decreases |bytes|
  {
    if bytes != [] {
      var next := Lex(l, bytes[0]);
      if next.broken {
        BrokenStays(next, bytes[1..]);
      } else {
        CounterIsHeight(next, bytes[1..]);
      }
    }
  }

  lemma PrefixUnderPeak(s: Scan, bytes: seq<Byte>, k: nat)
    requires k <= |bytes|
    ensures Walk(s, bytes[..k]).depth <= Peak(s, bytes)
  {
    assert bytes == bytes[..k] + bytes[k..];
    WalkAppend(s, bytes[..k], bytes[k..]);
    PeakAtLeast(Walk(s, bytes[..k]), bytes[k..]);
  }

  lemma {:induction false} PeakIsReached(s: Scan, bytes: seq<Byte>) returns (k: nat)
    ensures k <= |bytes| && Walk(s, bytes[..k]).depth == Peak(s, bytes)
    decreases |bytes|
  {
    if bytes == [] || Peak(s, bytes) == s.depth {
      k := 0;
    } else {
      var j := PeakIsReached(After(s, bytes[0]), bytes[1..]);
      k := j + 1;
      assert bytes[..k][0] == bytes[0] && bytes[..k][1..] == bytes[1..][..j];
    }
  }

  lemma {:induction false} PrefixUnbroken(l: Lexer, bytes: seq<Byte>, k: nat)
    requires k <= |bytes| && !Lexed(l, bytes).broken
    ensures !Lexed(l, bytes[..k]).broken
    decreases |bytes|
  {
    if k > 0 {
      assert bytes[..k][0] == bytes[0] && bytes[..k][1..] == bytes[1..][..k - 1];
      PrefixUnbroken(Lex(l, bytes[0]), bytes[1..], k - 1);
    } else if l.broken {
      BrokenStays(l, bytes);
    }
  }

  /** Whatever the bytes: let through means no more brackets open before the first unmatched closer. */
  lemma LetThroughIsShallow(body: seq<Byte>, k: nat)
    requires Peak(Start, body) <= MAX_NESTING && k <= |body| && !Lexed(Fresh, body[..k]).broken
    ensures |Lexed(Fresh, body[..k]).stack| <= MAX_NESTING
  {
    CounterIsHeight(Fresh, body[..k]);
    PrefixUnderPeak(Start, body, k);
  }

  /** Without an unmatched closer it is refused exactly when that many brackets are open somewhere. */
  lemma RefusedIsDeep(body: seq<Byte>)
    requires !Lexed(Fresh, body).broken
    ensures Peak(Start, body) > MAX_NESTING <==> exists k | 0 <= k <= |body| :: |Lexed(Fresh, body[..k]).stack| > MAX_NESTING
  {
    var k := PeakIsReached(Start, body);
    PrefixUnbroken(Fresh, body, k);
    CounterIsHeight(Fresh, body[..k]);
    forall j | 0 <= j <= |body| ensures |Lexed(Fresh, body[..j]).stack| <= Peak(Start, body) {
      PrefixUnbroken(Fresh, body, j);
      CounterIsHeight(Fresh, body[..j]);
      PrefixUnderPeak(Start, body, j);
    }
  }

  function Openers(n: nat): seq<Byte> {
    if n == 0 then [] else [OPEN_ARRAY] + Openers(n - 1)
  }

  lemma {:induction false} OpenersWalk(n: nat, d: int)
    ensures Peak(At(d), Openers(n)) == d + n
    decreases n
  {
    if n > 0 {
      OpenersWalk(n - 1, d + 1);
      assert Openers(n)[0] == OPEN_ARRAY && Openers(n)[1..] == Openers(n - 1);
    }
  }

  lemma {:induction false} ClosersWalk(closers: seq<Byte>, d: int)
    requires forall b | b in closers :: b == CLOSE_ARRAY || b == CLOSE_OBJECT
    ensures Walk(At(d), closers) == At(d - |closers|) && Peak(At(d), closers) == d
    decreases |closers|
  {
    if closers != [] {
      assert closers[0] in closers;
      assert forall b | b in closers[1..] :: b in closers;
      ClosersWalk(closers[1..], d - 1);
    }
  }

  lemma DriftBy(closers: seq<Byte>, more: seq<Byte>, high: int)
    requires Walk(Start, closers) == At(-|closers|) && Peak(Start, closers) == 0
    requires Peak(At(-|closers|), more) == high
    ensures Peak(Start, closers + more) == Max(0, high)
  {
    WalkAppend(Start, closers, more);
  }

  /**
    After unmatched closers, where any parser stops, the counter is no longer the height:
    with so many of them in front, the brackets that follow are counted that much lower.
   */
  lemma CounterDriftsAfterwards(closers: seq<Byte>, more: seq<Byte>, openers: nat)
    requires (forall b | b in closers :: b == CLOSE_ARRAY || b == CLOSE_OBJECT) && more == Openers(openers)
    ensures Peak(Start, closers + more) == Max(0, openers - |closers|)
    ensures Peak(Start, closers + more) > MAX_NESTING <==> openers > MAX_NESTING + |closers|
  {
    ClosersWalk(closers, 0);
    OpenersWalk(openers, -|closers|);
    DriftBy(closers, more, openers - |closers|);
  }

  // ------------------------------------------------------------------ collecting the body

  datatype Message = Disconnect | Chunk(body: seq<Byte>, more: bool)

  datatype Collected = Gone | TooLarge | Body(bytes: seq<Byte>)

  function Joined(messages: seq<Message>): seq<Byte> {
    if messages == [] then []
    else Joined(messages[..|messages| - 1])
         + if messages[|messages| - 1].Chunk? then messages[|messages| - 1].body else []
  }

  /** The first messages are chunks that announce more and fit together. */
  predicate Pending(messages: seq<Message>, n: nat, maximum: nat)
    requires n <= |messages|
  {
    (forall i | 0 <= i < n :: messages[i].Chunk? && messages[i].more) && |Joined(messages[..n])| <= maximum
  }

  /** The chunks are joined in the order in which they come, and nothing else is added. */
  lemma {:induction false} JoinedInOrder(first: seq<Message>, rest: seq<Message>, body: seq<Byte>, more: bool)
    ensures Joined(first + rest) == Joined(first) + Joined(rest)
    ensures Joined([Chunk(body, more)]) == body && Joined([Disconnect]) == []
    decreases |rest|
  {
    assert [Chunk(body, more)][..0] == [] && [Disconnect][..0] == [] && Joined([]) == [];
    if rest == [] {
      assert first + rest == first;
    } else {
      var n := |rest| - 1;
      JoinedInOrder(first, rest[..n], body, more);
      assert (first + rest)[..|first + rest| - 1] == first + rest[..n];
    }
  }

  /**
    Reads until the body ends, the sender is gone or the limit would be passed, and keeps
    no more than the limit however the body is cut up or its length is declared. A sender
    that stays silent counts as gone.
   */
  method Collect(messages: seq<Message>, declared: Option<nat>, maximum: nat) returns (r: Collected)
    ensures r.Body? ==>
              (declared.Some? ==> declared.value <= maximum) && |r.bytes| <= maximum
              && exists n | 0 <= n < |messages| ::
                   Pending(messages, n, maximum) && messages[n].Chunk? && !messages[n].more && r.bytes == Joined(messages[..n + 1])
    ensures r.TooLarge? ==>
              (declared.Some? && declared.value > maximum)
              || exists n | 0 <= n < |messages| :: Pending(messages, n, maximum) && |Joined(messages[..n + 1])| > maximum
    ensures r.Gone? ==>
              (declared.Some? ==> declared.value <= maximum)
              && exists n | 0 <= n <= |messages| ::
                   Pending(messages, n, maximum) && (n == |messages| || messages[n].Disconnect?)
  {
    if declared.Some? && declared.value > maximum {
      return TooLarge;
    }
    var body: seq<Byte> := [];
    var n := 0;
    while n < |messages|
      invariant 0 <= n <= |messages| && Pending(messages, n, maximum) && body == Joined(messages[..n])
    {
      var message := messages[n];
      if message.Disconnect? {
        return Gone;
      }
      assert messages[..n + 1][..n] == messages[..n];
      if |body| + |message.body| > maximum {
        return TooLarge;
      }
      body := body + message.body;
      if !message.more {
        return Body(body);
      }
      n := n + 1;
    }
    r := Gone;
  }
}
