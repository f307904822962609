/** fmt's two scanners of format strings: the simple loop for short strings and the two-pass scanner. */
module FormatScan {
  import opened Arithmetic
  import opened Decimal

  /** The scanner's own errors, and `Thrown` by the handler; each ends the run. */
  datatype Error = Unmatched | InvalidFormat | MissingBrace | UnknownSpecifier | Thrown

  datatype Result<T> = Ok(value: T) | Fail(error: Error)

  /** How a replacement field names its argument */
  datatype Name = Automatic | Index(index: nat) | Named(name: string)

  /** A replacement field */
  datatype Use = Plain(arg: int) | WithSpecs(arg: int, specs: string)

  /** What reaches the handler: text, here character by character, and replacement fields. */
  datatype Item = Char(c: char) | Field(use: Use)

  /** The handler's answers may depend on the fields that it has seen: the argument that a name stands for;
      whether it accepts a plain field; and how much of the rest of the string is a format specification (if
      it claims more than there is, it has reached the end). */
  datatype Handler = Handler(
    argument: (seq<Use>, Name) -> Result<int>,
    accepts: (seq<Use>, int) -> bool,
    specs: (seq<Use>, int, string) -> Result<nat>
  )

  const INT_MAX: nat := 0x7fff_ffff
  const UNSIGNED: nat := 0x1_0000_0000

  predicate IsNameStart(c: char) { 'a' <= c <= 'z' || 'A' <= c <= 'Z' || c == '_' }

  // Numbers

  function DigitsEnd(s: string, i: nat): (e: nat)
    requires i <= |s|
    ensures i <= e <= |s|
    decreases |s| - i
  {
    if i < |s| && IsDigit(s[i]) then DigitsEnd(s, i + 1) else i
  }

  function NameEnd(s: string, i: nat): (e: nat)
    requires i <= |s|
    ensures i <= e <= |s|
    decreases |s| - i
  {
    if i < |s| && (IsNameStart(s[i]) || IsDigit(s[i])) then NameEnd(s, i + 1) else i
  }

  /** Unsigned arithmetic of 32 bits */
  function Wrapped(n: nat): nat { n % UNSIGNED }

  lemma WrappedStep(v: nat, d: nat)
    ensures Wrapped(Wrapped(v) * 10 + d) == Wrapped(10 * v + d)
  {
    assert v == v % UNSIGNED + UNSIGNED * (v / UNSIGNED);
    ModAdd(v % UNSIGNED * 10 + d, UNSIGNED, 10 * (v / UNSIGNED));
  }

  /** Nine digits never wrap, and with a tenth the wrapped sum is only used when it did not. */
  lemma WrapDetected(digits: string, prev: nat, value: nat)
    requires digits != "" && value == Wrapped(Value(digits)) && prev == Wrapped(Value(digits[..|digits| - 1]))
    ensures |digits| <= 9 ==> value == Value(digits) <= INT_MAX
    ensures |digits| == 10 ==> prev * 10 + Digit(digits[|digits| - 1]) == Value(digits)
    ensures Value(digits) <= INT_MAX ==> value == Value(digits)
  {
    ValueBound(digits);
    ValueBound(digits[..|digits| - 1]);
    assert Pow10(9) == 1_000_000_000;
    if |digits| <= 10 { Pow10Up(|digits| - 1, 9); }
    if |digits| <= 9 { Pow10Up(|digits|, 9); }
  }

  lemma ValueEmpty()
    ensures Wrapped(Value("")) == 0
  {
  }

  lemma DigitRead(s: string, a: nat, p: nat)
    requires a <= p < |s|
    ensures var d := s[a..p + 1];
      d == s[a..p] + [s[p]] && d[..|d| - 1] == s[a..p] && d[|d| - 1] == s[p]
  {
  }

  /** parse_nonnegative_int, whose unsigned sums wrap: the number, if it has at most ten digits and fits into an int. */
  method ParseNonnegativeInt(s: string, begin: nat, errorValue: int) returns (number: int, end: nat)
    requires begin < |s| && IsDigit(s[begin])
    ensures end == DigitsEnd(s, begin) && begin < end
    ensures number == if end - begin <= 10 && Value(s[begin..end]) <= INT_MAX then Value(s[begin..end]) else errorValue
  {
    hide Wrapped, Value, Digit;
    var value, prev, p := 0, 0, begin;
    ghost var digits := s[begin..p];
    ValueEmpty();
    assert digits == "";
    while true
      invariant begin <= p < |s| && IsDigit(s[p]) && DigitsEnd(s, begin) == DigitsEnd(s, p)
      invariant digits == s[begin..p] && value == Wrapped(Value(digits))
      decreases |s| - p
    {
      prev := value;
      value := Wrapped(value * 10 + Digit(s[p]));
      ValueSnoc(digits, s[p]);
      WrappedStep(Value(digits), Digit(s[p]));
      DigitRead(s, begin, p);
      digits := s[begin..p + 1];
      p := p + 1;
      if !(p != |s| && IsDigit(s[p])) { break; }
    }
    end := p;
    WrapDetected(digits, prev, value);
    hide DigitsEnd;
    var count := p - begin;
    if count <= 9 { return value, end; }
    number := if count == 10 && prev * 10 + Digit(s[p - 1]) <= INT_MAX then value else errorValue;
  }

  /** Without leading zeros, the number is the value of the digits, or INT_MAX if that does not fit into an int. */
  lemma SaturatedIndex(digits: string)
    requires digits != "" && Digit(digits[0]) > 0 && |digits| > 10
    ensures Value(digits) > INT_MAX
  {
    ValueFromBelow(digits);
    Pow10Up(10, |digits| - 1);
    assert Pow10(5) == 100_000 && Pow10(10) == 100_000 * Pow10(5);
  }

  // Replacement fields

  function Saturated(digits: string): nat { if Value(digits) <= INT_MAX then Value(digits) else INT_MAX }

  /** The name of the argument at `b`, and where it ends */
  function ParsedName(s: string, b: nat): (r: Result<(Name, nat)>)
    requires b < |s|
    ensures r.Ok? ==> b <= r.value.1 <= |s|
  {
    if s[b] == '}' || s[b] == ':' then Ok((Automatic, b))
    else if IsDigit(s[b]) then
      var e := if s[b] == '0' then b + 1 else DigitsEnd(s, b);
      if e == |s| || (s[e] != '}' && s[e] != ':') then Fail(InvalidFormat) else Ok((Index(Saturated(s[b..e])), e))
    else if !IsNameStart(s[b]) then Fail(InvalidFormat)
    else Ok((Named(s[b..NameEnd(s, b + 1)]), NameEnd(s, b + 1)))
  }

  /** The field whose name has been read up to `e` */
  function ParsedUse(h: Handler, uses: seq<Use>, s: string, arg: int, e: nat): (r: Result<(Item, nat)>)
    requires e <= |s|
    ensures r.Ok? ==> e < r.value.1 <= |s|
  {
    if e < |s| && s[e] == '}' then
      if h.accepts(uses, arg) then Ok((Field(Plain(arg)), e + 1)) else Fail(Thrown)
    else if e < |s| && s[e] == ':' then
      var specs := h.specs(uses, arg, s[e + 1..]);
      if specs.Fail? then Fail(Thrown)
      else
        var end := e + 1 + specs.value;
        if end >= |s| || s[end] != '}' then Fail(UnknownSpecifier)
        else Ok((Field(WithSpecs(arg, s[e + 1..end])), end + 1))
    else Fail(MissingBrace)
  }

  /** parse_replacement_field at an opening brace */
  function ParsedField(h: Handler, uses: seq<Use>, s: string, i: nat): (r: Result<(Item, nat)>)
    requires i < |s|
    ensures r.Ok? ==> i + 1 < r.value.1 <= |s|
  {
    if i + 1 == |s| then Fail(InvalidFormat)
    else if s[i + 1] == '{' then Ok((Char('{'), i + 2))
    else
      var name := ParsedName(s, i + 1);
      if name.Fail? then Fail(name.error)
      else
        var arg := h.argument(uses, name.value.0);
        if arg.Fail? then Fail(Thrown) else ParsedUse(h, uses, s, arg.value, name.value.1)
  }

  // How fields are written

  /** The text of a name: nothing, a number without leading zeros, or an identifier */
  function NameText(name: Name): string {
    match name
    case Automatic => ""
    case Index(k) => Digits(k)
    case Named(t) => t
  }

  predicate ValidName(name: Name) {
    match name
    case Automatic => true
    case Index(k) => k <= INT_MAX
    case Named(t) => t != "" && IsNameStart(t[0]) && forall i :: 0 <= i < |t| ==> IsNameStart(t[i]) || IsDigit(t[i])
  }

  lemma {:induction false} DigitsEndAt(s: string, b: nat, e: nat)
    requires b <= e <= |s| && (forall i :: b <= i < e ==> IsDigit(s[i])) && (e < |s| ==> !IsDigit(s[e]))
    ensures DigitsEnd(s, b) == e
    decreases e - b
  {
    if b < e { DigitsEndAt(s, b + 1, e); }
  }

  lemma {:induction false} NameEndAt(s: string, b: nat, e: nat)
    requires b <= e <= |s| && (forall i :: b <= i < e ==> IsNameStart(s[i]) || IsDigit(s[i]))
    requires e < |s| ==> !IsNameStart(s[e]) && !IsDigit(s[e])
    ensures NameEnd(s, b) == e
    decreases e - b
  {
    if b < e { NameEndAt(s, b + 1, e); }
  }

  lemma ReadsIndex(s: string, b: nat, e: nat, k: nat)
    requires b <= e < |s| && s[b..e] == Digits(k) && k <= INT_MAX && (s[e] == '}' || s[e] == ':')
    ensures ParsedName(s, b) == Ok((Index(k), e))
  {
    DigitsValue(k);
    DigitsLead(k);
    forall i | b <= i < e ensures IsDigit(s[i]) { assert s[i] == s[b..e][i - b]; }
    DigitsEndAt(s, b, e);
    assert s[b] == s[b..e][0];
    if k == 0 { assert |Digits(0)| == 1; }
    hide Digits, Value, DigitsEnd;
  }

  lemma ReadsNamed(s: string, b: nat, e: nat, t: string)
    requires b <= e < |s| && s[b..e] == t && ValidName(Named(t)) && (s[e] == '}' || s[e] == ':')
    ensures ParsedName(s, b) == Ok((Named(t), e))
  {
    forall i | b <= i < e ensures IsNameStart(s[i]) || IsDigit(s[i]) { assert s[i] == t[i - b]; }
    NameEndAt(s, b + 1, e);
    assert s[b] == t[0];
  }

  /** Every name that can be written is read back. */
  lemma ReadsName(s: string, b: nat, e: nat, name: Name)
    requires b <= e < |s| && s[b..e] == NameText(name) && ValidName(name) && (s[e] == '}' || s[e] == ':')
    ensures ParsedName(s, b) == Ok((name, e))
  {
    if name.Index? { ReadsIndex(s, b, e, name.index); }
    if name.Named? { ReadsNamed(s, b, e, name.name); }
  }

  /** A field in front of the string, up to the end of its name */
  lemma ReadsUse(h: Handler, uses: seq<Use>, s: string, i: nat, name: Name, arg: int, rest: string)
    requires i <= |s| && ValidName(name) && h.argument(uses, name) == Ok(arg)
    requires s[i..] == "{" + NameText(name) + rest && rest != "" && (rest[0] == '}' || rest[0] == ':')
    ensures var e := |s| - |rest|;
      && i + 1 <= e < |s| && s[e..] == rest && s[e] == rest[0]
      && ParsedField(h, uses, s, i) == ParsedUse(h, uses, s, arg, e)
  {
    hide ValidName, NameText, ParsedName, ParsedUse;
    NameThere(s, i, name, rest);
    ReadsName(s, i + 1, i + 1 + |NameText(name)|, name);
    BraceFree(name);
    assert |s[i + 1 + |NameText(name)|..]| == |rest|;
  }

  /** A plain field that is written is read back, and its argument goes to the handler. */
  lemma PlainRoundTrip(h: Handler, uses: seq<Use>, s: string, i: nat, name: Name, arg: int, rest: string)
    requires i <= |s| && ValidName(name) && h.argument(uses, name) == Ok(arg)
    requires s[i..] == "{" + NameText(name) + ("}" + rest)
    ensures ParsedField(h, uses, s, i)
         == if h.accepts(uses, arg) then Ok((Field(Plain(arg)), |s| - |rest|)) else Fail(Thrown)
  {
    hide ValidName, NameText, ParsedField;
    ReadsUse(h, uses, s, i, name, arg, "}" + rest);
  }

  /** So is a field with a specification, as far as the handler says that it goes. */
  lemma SpecsRoundTrip(h: Handler, uses: seq<Use>, s: string, i: nat, name: Name, arg: int, specs: string, rest: string)
    requires i <= |s| && ValidName(name) && h.argument(uses, name) == Ok(arg)
    requires s[i..] == "{" + NameText(name) + (":" + specs + "}" + rest)
             && h.specs(uses, arg, specs + "}" + rest) == Ok(|specs|)
    ensures ParsedField(h, uses, s, i) == Ok((Field(WithSpecs(arg, specs)), |s| - |rest|))
  {
    hide ValidName, NameText, ParsedField, ParsedUse;
    ReadsUse(h, uses, s, i, name, arg, ":" + specs + "}" + rest);
    ReadsSpecs(h, uses, s, arg, |s| - |":" + specs + "}" + rest|, specs, rest);
  }

  lemma ReadsSpecs(h: Handler, uses: seq<Use>, s: string, arg: int, e: nat, specs: string, rest: string)
    requires e <= |s| && s[e..] == ":" + specs + "}" + rest && h.specs(uses, arg, specs + "}" + rest) == Ok(|specs|)
    ensures ParsedUse(h, uses, s, arg, e) == Ok((Field(WithSpecs(arg, specs)), |s| - |rest|))
  {
    assert s[e] == s[e..][0];
    assert s[e + 1..] == s[e..][1..] && s[e..][1..] == specs + "}" + rest;
    SpecsThere(s, e + 1, specs, rest);
  }

  lemma BraceFree(name: Name)
    requires ValidName(name)
    ensures NameText(name) != "" ==> NameText(name)[0] != '{'
  {
    if name.Index? { DigitsValue(name.index); }
  }

  lemma SpecsThere(s: string, b: nat, specs: string, rest: string)
    requires b <= |s| && s[b..] == specs + "}" + rest
    ensures b + |specs| + 1 + |rest| == |s| && s[b..b + |specs|] == specs && s[b + |specs|] == '}'
  {
    assert s[b..b + |specs|] == s[b..][..|specs|];
    assert s[b + |specs|] == s[b..][|specs|];
  }

  /** Conversely, what is read as a field is written as one: a brace, the name, and up to a closing brace. */
  lemma FieldText(h: Handler, uses: seq<Use>, s: string, i: nat)
    requires i < |s| && s[i] == '{' && ParsedField(h, uses, s, i).Ok?
    ensures var (item, end) := ParsedField(h, uses, s, i).value;
      if item.Char? then item.c == '{' && s[i..end] == "{{"
      else
        && ParsedName(s, i + 1).Ok? && h.argument(uses, ParsedName(s, i + 1).value.0) == Ok(item.use.arg)
        && s[i..end] == "{" + s[i + 1..ParsedName(s, i + 1).value.1]
                        + if item.use.Plain? then "}" else ":" + item.use.specs + "}"
  {
    var (item, end) := ParsedField(h, uses, s, i).value;
    if item.Field? {
      hide ParsedName, ParsedUse;
      var e := ParsedName(s, i + 1).value.1;
      UseText(h, uses, s, item.use.arg, e);
      ThreeParts(s, i, e, end);
      hide ParsedField;
    }
  }

  lemma ThreeParts(s: string, i: nat, e: nat, end: nat)
    requires i < e <= end <= |s|
    ensures s[i..end] == [s[i]] + s[i + 1..e] + s[e..end]
  {
  }

  lemma UseText(h: Handler, uses: seq<Use>, s: string, arg: int, e: nat)
    requires e <= |s| && ParsedUse(h, uses, s, arg, e).Ok?
    ensures var (item, end) := ParsedUse(h, uses, s, arg, e).value;
      && item.Field? && item.use.arg == arg
      && s[e..end] == if item.use.Plain? then "}" else ":" + item.use.specs + "}"
  {
    var (item, end) := ParsedUse(h, uses, s, arg, e).value;
    if item.use.WithSpecs? { ColonText(s, e, end); } else { assert s[e..end] == [s[e]]; }
  }

  lemma ColonText(s: string, e: nat, end: nat)
    requires e + 1 < end <= |s| && s[e] == ':' && s[end - 1] == '}'
    ensures s[e..end] == ":" + s[e + 1..end - 1] + "}"
  {
  }

  lemma NameThere(s: string, i: nat, name: Name, rest: string)
    requires i <= |s| && s[i..] == "{" + NameText(name) + rest && rest != ""
    ensures var e := i + 1 + |NameText(name)|;
      && e < |s| && s[i] == '{' && s[i + 1..e] == NameText(name) && s[e..] == rest && s[e] == rest[0]
      && s[i + 1] == if NameText(name) == "" then rest[0] else NameText(name)[0]
  {
    var e := i + 1 + |NameText(name)|;
    assert |s[i..]| == |s| - i;
    assert s[i + 1..e] == s[i..][1..e - i];
    assert s[e..] == s[i..][e - i..];
    assert s[e] == s[e..][0] && s[i] == s[i..][0];
  }

  // What a format string means

  function Uses(items: seq<Item>): seq<Use> {
    if items == [] then []
    else Uses(items[..|items| - 1]) + if items[|items| - 1].Field? then [items[|items| - 1].use] else []
  }

  /** The items of the string from `i` on, after `items` */
  function Scan(h: Handler, s: string, i: nat, items: seq<Item>): Result<seq<Item>>
    requires i <= |s|
    decreases |s| - i
  {
    if i == |s| then Ok(items)
    else if s[i] == '{' then
      var field := ParsedField(h, Uses(items), s, i);
      if field.Fail? then Fail(field.error) else Scan(h, s, field.value.1, items + [field.value.0])
    else if s[i] == '}' then
      if i + 1 < |s| && s[i + 1] == '}' then Scan(h, s, i + 2, items + [Char('}')]) else Fail(Unmatched)
    else Scan(h, s, i + 1, items + [Char(s[i])])
  }

  function Text(t: string): (r: seq<Item>)
    ensures |r| == |t| && forall i :: 0 <= i < |r| ==> r[i] == Char(t[i])
  {
    seq(|t|, i requires 0 <= i < |t| => Char(t[i]))
  }

  lemma {:induction false} UsesText(items: seq<Item>, t: string)
    ensures Uses(items + Text(t)) == Uses(items)
    decreases |t|
  {
    if t == "" {
      assert items + Text(t) == items;
    } else {
      var u := t[..|t| - 1];
      assert (items + Text(t))[..|items| + |u|] == items + Text(u);
      UsesText(items, u);
    }
  }

  /** Characters other than braces stand for themselves. */
  lemma {:induction false} ScanPlain(h: Handler, s: string, i: nat, j: nat, items: seq<Item>)
    requires i <= j <= |s| && forall k :: i <= k < j ==> s[k] != '{' && s[k] != '}'
    ensures Scan(h, s, i, items) == Scan(h, s, j, items + Text(s[i..j]))
    decreases j - i
  {
    if i == j {
      assert items + Text(s[i..j]) == items;
    } else {
      ScanPlain(h, s, i + 1, j, items + [Char(s[i])]);
      assert items + [Char(s[i])] + Text(s[i + 1..j]) == items + Text(s[i..j]);
    }
  }

  /** A doubled closing brace after plain text */
  lemma ScanDoubled(h: Handler, s: string, i: nat, j: nat, items: seq<Item>)
    requires i <= j < |s| - 1 && s[j] == '}' && s[j + 1] == '}' && forall k :: i <= k < j ==> s[k] != '{' && s[k] != '}'
    ensures Scan(h, s, i, items) == Scan(h, s, j + 2, items + Text(s[i..j + 1]))
  {
    ScanPlain(h, s, i, j, items);
    assert items + Text(s[i..j]) + [Char('}')] == items + Text(s[i..j + 1]);
  }

  /** A single closing brace after plain text */
  lemma ScanUnmatched(h: Handler, s: string, i: nat, j: nat, items: seq<Item>)
    requires i <= j < |s| && s[j] == '}' && (j + 1 < |s| ==> s[j + 1] != '}')
    requires forall k :: i <= k < j ==> s[k] != '{' && s[k] != '}'
    ensures Scan(h, s, i, items) == Fail(Unmatched)
  {
    ScanPlain(h, s, i, j, items);
  }

  // The code

  /** parse_arg_id, up to the call of the handler */
  method ParseName(s: string, b: nat) returns (r: Result<(Name, nat)>)
    requires b < |s|
    ensures r == ParsedName(s, b)
  {
    hide Value;
    if s[b] == '}' || s[b] == ':' { return Ok((Automatic, b)); }
    var c, it := s[b], b;
    if IsDigit(c) {
      var index := 0;
      if c != '0' {
        index, it := ParseNonnegativeInt(s, b, INT_MAX);
        if it - b > 10 { SaturatedIndex(s[b..it]); }
      } else {
        it := it + 1;
        ValueZero();
        assert s[b..it] == "0";
      }
      if it == |s| || (s[it] != '}' && s[it] != ':') { return Fail(InvalidFormat); }
      return Ok((Index(index), it));
    }
    if !IsNameStart(c) { return Fail(InvalidFormat); }
    it := it + 1;
    while it != |s| && (IsNameStart(s[it]) || IsDigit(s[it]))
      invariant b + 1 <= it <= |s| && NameEnd(s, b + 1) == NameEnd(s, it)
    {
      it := it + 1;
    }
    r := Ok((Named(s[b..it]), it));
  }

  method ParseArgId(h: Handler, uses: seq<Use>, s: string, b: nat) returns (r: Result<(int, nat)>)
    requires b < |s|
    ensures var name := ParsedName(s, b);
            if name.Fail? then r == Fail(name.error)
            else
              var arg := h.argument(uses, name.value.0);
              r == if arg.Fail? then Fail(Thrown) else Ok((arg.value, name.value.1))
  {
    hide ParsedName;
    var name := ParseName(s, b);
    match name {
      case Fail(error) => r := Fail(error);
      case Ok((n, it)) =>
        match h.argument(uses, n) {
          case Fail(_) => r := Fail(Thrown);
          case Ok(arg) => r := Ok((arg, it));
        }
    }
  }

  lemma ValueZero()
    ensures Saturated("0") == 0
  {
    assert Value("") == 0;
  }

  method ParseReplacementField(h: Handler, uses: seq<Use>, s: string, i: nat) returns (r: Result<(Item, nat)>)
    requires i < |s|
    ensures r == ParsedField(h, uses, s, i)
  {
    var begin := i + 1;
    if begin == |s| { return Fail(InvalidFormat); }
    if s[begin] == '}' {
      var arg := h.argument(uses, Automatic);
      if arg.Fail? || !h.accepts(uses, arg.value) { return Fail(Thrown); }
      return Ok((Field(Plain(arg.value)), begin + 1));
    }
    if s[begin] == '{' { return Ok((Char('{'), begin + 1)); }
    var id := ParseArgId(h, uses, s, begin);
    if id.Fail? { return Fail(id.error); }
    var arg, it := id.value.0, id.value.1;
    if it != |s| && s[it] == '}' {
      if !h.accepts(uses, arg) { return Fail(Thrown); }
      r := Ok((Field(Plain(arg)), it + 1));
    } else if it != |s| && s[it] == ':' {
      var specs := h.specs(uses, arg, s[it + 1..]);
      if specs.Fail? { return Fail(Thrown); }
      var end := it + 1 + specs.value;
      if end >= |s| || s[end] != '}' { return Fail(UnknownSpecifier); }
      r := Ok((Field(WithSpecs(arg, s[it + 1..end])), end + 1));
    } else {
      r := Fail(MissingBrace);
    }
  }

  /** memchr */
  method Find(s: string, from: nat, to: nat, c: char) returns (found: bool, p: nat)
    requires from <= to <= |s|
    ensures from <= p <= to && (found <==> p < to) && (found ==> s[p] == c)
    ensures forall k :: from <= k < p ==> s[k] != c
  {
    p := from;
    while p < to && s[p] != c
      invariant from <= p <= to && forall k :: from <= k < p ==> s[k] != c
    {
      p := p + 1;
    }
    found := p < to;
  }

  lemma TextSnoc(items: seq<Item>, s: string, a: nat, p: nat)
    requires a <= p < |s|
    ensures items + Text(s[a..p]) + [Char(s[p])] == items + Text(s[a..p + 1])
  {
  }

  lemma TextNone(items: seq<Item>, s: string, p: nat)
    requires p <= |s|
    ensures items + Text(s[p..p]) == items
  {
  }

  /** The three things that a scanner can come to */
  lemma ScanField(h: Handler, s: string, p: nat, items: seq<Item>)
    requires p < |s| && s[p] == '{'
    ensures var field := ParsedField(h, Uses(items), s, p);
      Scan(h, s, p, items)
      == if field.Fail? then Fail(field.error) else Scan(h, s, field.value.1, items + [field.value.0])
  {
  }

  lemma ScanClosing(h: Handler, s: string, p: nat, items: seq<Item>)
    requires p < |s| && s[p] == '}'
    ensures Scan(h, s, p, items)
      == if p + 1 < |s| && s[p + 1] == '}' then Scan(h, s, p + 2, items + [Char('}')]) else Fail(Unmatched)
  {
  }

  lemma ScanChar(h: Handler, s: string, p: nat, items: seq<Item>)
    requires p < |s| && s[p] != '{' && s[p] != '}'
    ensures Scan(h, s, p, items) == Scan(h, s, p + 1, items + [Char(s[p])])
  {
  }

  lemma ScanEnd(h: Handler, s: string, items: seq<Item>)
    ensures Scan(h, s, |s|, items) == Ok(items)
  {
  }

  /** The loop for short strings; `text` begins the text not yet passed on. */
  method ScanShort(h: Handler, s: string) returns (r: Result<seq<Item>>)
    ensures r == Scan(h, s, 0, [])
  {
    hide Text, Scan, ParsedField;
    var text, p, items: seq<Item> := 0, 0, [];
    TextNone(items, s, 0);
    while p != |s|
      invariant 0 <= text <= p <= |s|
      invariant Scan(h, s, 0, []) == Scan(h, s, p, items + Text(s[text..p]))
      decreases |s| - p
    {
      var c := s[p];
      p := p + 1;
      ghost var before := items + Text(s[text..p - 1]);
      TextSnoc(items, s, text, p - 1);
      if c == '{' {
        ScanField(h, s, p - 1, before);
        items := items + Text(s[text..p - 1]);
        var field := ParseReplacementField(h, Uses(items), s, p - 1);
        if field.Fail? { return Fail(field.error); }
        items := items + [field.value.0];
        text, p := field.value.1, field.value.1;
        TextNone(items, s, p);
      } else if c == '}' {
        ScanClosing(h, s, p - 1, before);
        if p == |s| || s[p] != '}' { return Fail(Unmatched); }
        items := items + Text(s[text..p]);
        p := p + 1;
        text := p;
        TextNone(items, s, p);
      } else {
        ScanChar(h, s, p - 1, before);
      }
    }
    r := Ok(items + Text(s[text..]));
    assert s[text..] == s[text..p];
    ScanEnd(h, s, items + Text(s[text..p]));
  }

  /** The writer of the two-pass scanner, on a piece without opening braces */
  method Write(h: Handler, s: string, begin: nat, to: nat, before: seq<Item>) returns (r: Result<seq<Item>>)
    requires begin <= to <= |s| && (to < |s| ==> s[to] == '{') && forall k :: begin <= k < to ==> s[k] != '{'
    ensures Scan(h, s, begin, before) == if r.Fail? then Fail(r.error) else Scan(h, s, to, r.value)
  {
    if begin == to { return Ok(before); }
    hide Scan;
    var from, items := begin, before;
    while true
      invariant begin <= from <= to
      invariant Scan(h, s, begin, before) == Scan(h, s, from, items)
      decreases |s| - from
    {
      var found, p := Find(s, from, to, '}');
      if !found {
        ScanPlain(h, s, from, to, items);
        return Ok(items + Text(s[from..to]));
      }
      p := p + 1;
      if p == to || s[p] != '}' {
        ScanUnmatched(h, s, from, p - 1, items);
        return Fail(Unmatched);
      }
      ScanDoubled(h, s, from, p - 1, items);
      items := items + Text(s[from..p]);
      from := p + 1;
    }
  }

  /** The scanner that looks for the braces in two passes */
  method ScanTwoPass(h: Handler, s: string) returns (r: Result<seq<Item>>)
    ensures r == Scan(h, s, 0, [])
  {
    var begin, items: seq<Item> := 0, [];
    while begin != |s|
      invariant begin <= |s| && Scan(h, s, 0, []) == Scan(h, s, begin, items)
      decreases |s| - begin
    {
      var p := begin;
      if s[begin] != '{' {
        var found;
        found, p := Find(s, begin + 1, |s|, '{');
        if !found {
          r := Write(h, s, begin, |s|, items);
          return;
        }
      }
      var written := Write(h, s, begin, p, items);
      if written.Fail? { return written; }
      items := written.value;
      var field := ParseReplacementField(h, Uses(items), s, p);
      if field.Fail? { return Fail(field.error); }
      items := items + [field.value.0];
      begin := field.value.1;
    }
    r := Ok(items);
  }

  /** parse_format_string: whichever scanner is taken, the result is the same. */
  method ParseFormatString(h: Handler, s: string) returns (r: Result<seq<Item>>)
    ensures r == Scan(h, s, 0, [])
  {
    if |s| < 32 { r := ScanShort(h, s); } else { r := ScanTwoPass(h, s); }
  }

  // Escaping

  function Escape(c: char): string { if c == '{' || c == '}' then [c, c] else [c] }

  function Escaped(t: string): string {
    if t == "" then "" else Escape(t[0]) + Escaped(t[1..])
  }

  lemma TextCons(items: seq<Item>, t: string)
    requires t != ""
    ensures items + [Char(t[0])] + Text(t[1..]) == items + Text(t)
  {
  }

  /** Text with its braces doubled comes out as it was, whatever the handler. */
  lemma {:induction false} EscapedRoundTrip(h: Handler, s: string, i: nat, t: string, items: seq<Item>)
    requires i <= |s| && s[i..] == Escaped(t)
    ensures Scan(h, s, i, items) == Ok(items + Text(t))
    decreases |t|
  {
    if t == "" {
      assert |s[i..]| == 0;
      TextNone(items, "", 0);
    } else {
      var j := i + |Escape(t[0])|;
      EscapedFront(s, i, t);
      ScanEscaped(h, s, i, t[0], items);
      hide Scan, Escaped, Escape;
      EscapedRoundTrip(h, s, j, t[1..], items + [Char(t[0])]);
      TextCons(items, t);
    }
  }

  lemma EscapedFront(s: string, i: nat, t: string)
    requires i <= |s| && t != "" && s[i..] == Escaped(t)
    ensures var j := i + |Escape(t[0])|;
      j <= |s| && s[j..] == Escaped(t[1..]) && s[i] == t[0] && (j == i + 2 ==> s[i + 1] == t[0])
  {
    var e := Escape(t[0]);
    assert |s[i..]| == |e| + |Escaped(t[1..])|;
    assert s[i] == s[i..][0] == t[0];
    assert |e| == 2 ==> s[i + 1] == s[i..][1] == t[0];
    assert s[i + |e|..] == s[i..][|e|..] == Escaped(t[1..]);
  }

  lemma ScanEscaped(h: Handler, s: string, i: nat, c: char, items: seq<Item>)
    requires i + |Escape(c)| <= |s| && s[i] == c && (|Escape(c)| == 2 ==> s[i + 1] == c)
    ensures Scan(h, s, i, items) == Scan(h, s, i + |Escape(c)|, items + [Char(c)])
  {
    hide Scan;
    if c == '{' { ScanField(h, s, i, items); }
    else if c == '}' { ScanClosing(h, s, i, items); }
    else { ScanChar(h, s, i, items); }
  }

  // Whole format strings

  /** A format string is written piece by piece. */
  datatype Piece = Literal(c: char) | Bare(name: Name) | Detailed(name: Name, specs: string)

  function Write1(piece: Piece): string {
    match piece
    case Literal(c) => Escape(c)
    case Bare(name) => "{" + NameText(name) + "}"
    case Detailed(name, specs) => "{" + NameText(name) + ":" + specs + "}"
  }

  function Written(pieces: seq<Piece>): string {
    if pieces == [] then "" else Write1(pieces[0]) + Written(pieces[1..])
  }

  /** What one piece stands for, when the fields before it were `uses`: the item, or the handler's refusal. The handler
      takes a specification to end where it does. */
  function Render1(h: Handler, uses: seq<Use>, piece: Piece): Result<Item> {
    if piece.Literal? then Ok(Char(piece.c))
    else
      var arg := h.argument(uses, piece.name);
      if arg.Fail? then Fail(Thrown)
      else if piece.Detailed? then Ok(Field(WithSpecs(arg.value, piece.specs)))
      else if h.accepts(uses, arg.value) then Ok(Field(Plain(arg.value)))
      else Fail(Thrown)
  }

  function With(uses: seq<Use>, item: Item): seq<Use> {
    if item.Field? then uses + [item.use] else uses
  }

  /** The items, each field read with exactly the fields before it; the first refusal ends the run. */
  function Rendered(h: Handler, uses: seq<Use>, pieces: seq<Piece>): Result<seq<Item>>
    decreases |pieces|
  {
    if pieces == [] then Ok([])
    else
      var first := Render1(h, uses, pieces[0]);
      if first.Fail? then Fail(first.error)
      else
        var rest := Rendered(h, With(uses, first.value), pieces[1..]);
        if rest.Fail? then rest else Ok([first.value] + rest.value)
  }

  /** The handler takes the specification of a piece to end where it does. */
  predicate Agrees1(h: Handler, uses: seq<Use>, piece: Piece, rest: string) {
    piece.Detailed? && h.argument(uses, piece.name).Ok? ==>
      h.specs(uses, h.argument(uses, piece.name).value, piece.specs + "}" + rest) == Ok(|piece.specs|)
  }

  /** And so for all pieces, as far as they are read. */
  predicate Agrees(h: Handler, uses: seq<Use>, pieces: seq<Piece>, tail: string)
    decreases |pieces|
  {
    pieces != [] ==>
      && (pieces[0].Literal? || ValidName(pieces[0].name))
      && Agrees1(h, uses, pieces[0], Written(pieces[1..]) + tail)
      && var first := Render1(h, uses, pieces[0]);
         (first.Ok? ==> Agrees(h, With(uses, first.value), pieces[1..], tail))
  }

  lemma UsesSnoc(items: seq<Item>, item: Item)
    ensures Uses(items + [item]) == With(Uses(items), item)
  {
    assert (items + [item])[..|items|] == items;
  }

  /** One piece, whatever follows */
  lemma ScanPiece(h: Handler, s: string, i: nat, piece: Piece, rest: string, items: seq<Item>)
    requires i <= |s| && s[i..] == Write1(piece) + rest && (piece.Literal? || ValidName(piece.name))
    requires Agrees1(h, Uses(items), piece, rest)
    ensures var first := Render1(h, Uses(items), piece);
            Scan(h, s, i, items)
            == if first.Fail? then Fail(first.error) else Scan(h, s, |s| - |rest|, items + [first.value])
  {
    hide Scan, Uses, NameText, ValidName, ParsedField;
    assert |s[i..]| == |s| - i;
    if piece.Literal? {
      assert s[i] == s[i..][0];
      if |Escape(piece.c)| == 2 { assert s[i + 1] == s[i..][1]; }
      ScanEscaped(h, s, i, piece.c, items);
    } else {
      assert s[i] == s[i..][0];
      ScanField(h, s, i, items);
      FieldThere(h, s, i, piece, rest, Uses(items));
    }
  }

  /** What follows the name of a field */
  function Behind(piece: Piece, rest: string): string
    requires !piece.Literal?
  {
    if piece.Bare? then "}" + rest else ":" + piece.specs + "}" + rest
  }

  lemma BehindName(piece: Piece, rest: string)
    requires !piece.Literal?
    ensures Write1(piece) + rest == "{" + NameText(piece.name) + Behind(piece, rest)
  {
    hide NameText;
  }

  lemma FieldThere(h: Handler, s: string, i: nat, piece: Piece, rest: string, uses: seq<Use>)
    requires i < |s| && !piece.Literal? && s[i..] == Write1(piece) + rest && ValidName(piece.name)
    requires Agrees1(h, uses, piece, rest)
    ensures var field := ParsedField(h, uses, s, i);
            match Render1(h, uses, piece)
            case Ok(item) => field == Ok((item, |s| - |rest|))
            case Fail(error) => field == Fail(error)
  {
    hide ValidName, ParsedField, NameText, Write1;
    var more := Behind(piece, rest);
    BehindName(piece, rest);
    var arg := h.argument(uses, piece.name);
    if arg.Fail? {
      ArgumentFails(h, s, i, piece.name, more, uses);
    } else if piece.Bare? {
      PlainRoundTrip(h, uses, s, i, piece.name, arg.value, rest);
    } else {
      SpecsRoundTrip(h, uses, s, i, piece.name, arg.value, piece.specs, rest);
    }
  }

  lemma ArgumentFails(h: Handler, s: string, i: nat, name: Name, rest: string, uses: seq<Use>)
    requires i < |s| && ValidName(name) && h.argument(uses, name).Fail?
    requires s[i..] == "{" + NameText(name) + rest && rest != "" && (rest[0] == '}' || rest[0] == ':')
    ensures ParsedField(h, uses, s, i) == Fail(Thrown)
  {
    hide ValidName, NameText, ParsedName, ParsedUse;
    NameThere(s, i, name, rest);
    ReadsName(s, i + 1, i + 1 + |NameText(name)|, name);
    BraceFree(name);
  }

  /** Pieces in front of the string: what they stand for comes out, then the rest is read. */
  lemma {:induction false} ScanPieces(h: Handler, s: string, i: nat, pieces: seq<Piece>, tail: string, items: seq<Item>)
    requires i <= |s| && s[i..] == Written(pieces) + tail && Agrees(h, Uses(items), pieces, tail)
    ensures var all := Rendered(h, Uses(items), pieces);
            Scan(h, s, i, items)
            == if all.Fail? then Fail(all.error) else Scan(h, s, |s| - |tail|, items + all.value)
    decreases |pieces|
  {
    hide Scan, Uses, Write1, Agrees1, Render1, With;
    if pieces == [] {
      assert s[i..] == tail && |s[i..]| == |s| - i;
      assert items + [] == items;
    } else {
      var rest := Written(pieces[1..]) + tail;
      assert s[i..] == Write1(pieces[0]) + rest;
      ScanPiece(h, s, i, pieces[0], rest, items);
      var first := Render1(h, Uses(items), pieces[0]);
      if first.Ok? {
        UsesSnoc(items, first.value);
        RestThere(s, i, Write1(pieces[0]), rest);
        ScanPieces(h, s, |s| - |rest|, pieces[1..], tail, items + [first.value]);
        var later := Rendered(h, With(Uses(items), first.value), pieces[1..]);
        if later.Ok? { assert items + [first.value] + later.value == items + ([first.value] + later.value); }
      }
    }
  }

  lemma RestThere(s: string, i: nat, first: string, rest: string)
    requires i <= |s| && s[i..] == first + rest
    ensures |rest| <= |s| && s[|s| - |rest|..] == rest
  {
    assert |s[i..]| == |s| - i;
    assert s[|s| - |rest|..] == s[i..][|first|..];
  }

  lemma UsesNone()
    ensures Uses([]) == []
  {
  }

  lemma ScanFront(h: Handler, pieces: seq<Piece>, tail: string)
    requires Agrees(h, [], pieces, tail)
    ensures var s, all := Written(pieces) + tail, Rendered(h, [], pieces);
            Scan(h, s, 0, []) == if all.Fail? then Fail(all.error) else Scan(h, s, |s| - |tail|, all.value)
  {
    hide Scan, Agrees, Rendered, Written, Uses;
    var s, all := Written(pieces) + tail, Rendered(h, [], pieces);
    assert s[0..] == Written(pieces) + tail;
    UsesNone();
    ScanPieces(h, s, 0, pieces, tail, []);
    if all.Ok? { assert [] + all.value == all.value; }
  }

  /** Writing and reading: whatever pieces a format string is written from, reading it gives what they stand for, and
      each field is given to the handler with exactly the fields before it. */
  lemma FormatRoundTrip(h: Handler, pieces: seq<Piece>)
    requires Agrees(h, [], pieces, "")
    ensures Scan(h, Written(pieces), 0, []) == Rendered(h, [], pieces)
  {
    hide Scan, Agrees, Rendered, Written;
    var s, all := Written(pieces), Rendered(h, [], pieces);
    ScanFront(h, pieces, "");
    assert s + "" == s;
    if all.Ok? { ScanEnd(h, s, all.value); }
  }

  function EmptyFields(k: nat): seq<Piece> { seq(k, _ => Bare(Automatic)) }

  function Numbered(from: nat, k: nat): seq<Item> { seq(k, i requires 0 <= i < k => Field(Plain(from + i))) }

  lemma PlainName()
    ensures ValidName(Automatic)
  {
  }

  lemma FieldNext(k: nat, from: nat)
    ensures EmptyFields(k + 1) == [Bare(Automatic)] + EmptyFields(k)
    ensures Numbered(from, k + 1) == [Field(Plain(from))] + Numbered(from + 1, k)
  {
  }

  lemma {:induction false} NumberedFrom(h: Handler, uses: seq<Use>, k: nat)
    requires forall u: seq<Use> :: h.argument(u, Automatic) == Ok(|u|) && h.accepts(u, |u|)
    ensures Agrees(h, uses, EmptyFields(k), "") && Rendered(h, uses, EmptyFields(k)) == Ok(Numbered(|uses|, k))
    decreases k
  {
    hide Written, ValidName, EmptyFields, Numbered;
    if k == 0 {
      NoFields(h, uses);
    } else {
      FieldNext(k - 1, |uses|);
      assert EmptyFields(k)[0] == Bare(Automatic) && EmptyFields(k)[1..] == EmptyFields(k - 1);
      assert ValidName(Automatic) by { PlainName(); }
      assert Render1(h, uses, Bare(Automatic)) == Ok(Field(Plain(|uses|)));
      NumberedFrom(h, uses + [Plain(|uses|)], k - 1);
    }
  }

  lemma NoFields(h: Handler, uses: seq<Use>)
    ensures Agrees(h, uses, EmptyFields(0), "") && Rendered(h, uses, EmptyFields(0)) == Ok(Numbered(|uses|, 0))
  {
    assert EmptyFields(0) == [] && Numbered(|uses|, 0) == [];
  }

  /** A handler that counts its fields gives k fields without a name the arguments 0 to k - 1, in this order. */
  lemma AutomaticArguments(h: Handler, k: nat)
    requires forall u: seq<Use> :: h.argument(u, Automatic) == Ok(|u|) && h.accepts(u, |u|)
    ensures Scan(h, Written(EmptyFields(k)), 0, []) == Ok(Numbered(0, k))
  {
    NumberedFrom(h, [], k);
    FormatRoundTrip(h, EmptyFields(k));
  }

  /** How a string cannot go on, and the error that it gives */
  ghost predicate Broken(h: Handler, uses: seq<Use>, tail: string, error: Error) {
    // a closing brace by itself
    || (error.Unmatched? && tail != "" && tail[0] == '}' && (|tail| > 1 ==> tail[1] != '}'))
    // an opening brace at the end, or before something that begins no name
    || (error.InvalidFormat? && tail == "{")
    || (error.InvalidFormat? && |tail| > 1 && tail[0] == '{'
        && !IsDigit(tail[1]) && !IsNameStart(tail[1]) && tail[1] !in {'{', '}', ':'})
    // a name or number that is not followed by a colon or a closing brace
    || exists name, rest ::
         Opens(tail, name, rest) && ValidName(name) && !name.Automatic? && error == OpenError(h, uses, name)
  }

  function OpenError(h: Handler, uses: seq<Use>, name: Name): Error {
    if name.Index? then InvalidFormat else if h.argument(uses, name).Fail? then Thrown else MissingBrace
  }

  predicate Opens(tail: string, name: Name, rest: string) {
    && tail == "{" + NameText(name) + rest
    && (rest == "" || (rest[0] != '}' && rest[0] != ':' && !IsDigit(rest[0]) && !IsNameStart(rest[0])))
  }

  lemma BrokenField(h: Handler, s: string, i: nat, items: seq<Item>, error: Error)
    requires i <= |s| && Broken(h, Uses(items), s[i..], error)
    ensures Scan(h, s, i, items) == Fail(error)
  {
    var tail := s[i..];
    assert |tail| == |s| - i;
    assert |tail| > 0 ==> s[i] == tail[0];
    assert |tail| > 1 ==> s[i + 1] == tail[1];
    if tail != "" && tail[0] == '{' && |tail| > 1 {
      if name, rest :|
        Opens(tail, name, rest) && ValidName(name) && !name.Automatic? && error == OpenError(h, Uses(items), name)
      {
        OpenField(h, Uses(items), s, i, name, rest);
      }
    }
  }

  lemma TextThere(s: string, i: nat, text: string, rest: string)
    requires i < |s| && s[i..] == "{" + text + rest
    ensures var e := i + 1 + |text|; e <= |s| && s[i] == '{' && s[i + 1..e] == text && s[e..] == rest
  {
    var e := i + 1 + |text|;
    assert |s[i..]| == |s| - i && s[i] == s[i..][0];
    assert s[i + 1..e] == s[i..][1..e - i];
    assert s[e..] == s[i..][e - i..];
  }

  lemma OpenField(h: Handler, uses: seq<Use>, s: string, i: nat, name: Name, rest: string)
    requires i < |s| && Opens(s[i..], name, rest) && ValidName(name) && !name.Automatic?
    ensures s[i] == '{' && ParsedField(h, uses, s, i) == Fail(OpenError(h, uses, name))
  {
    var e := i + 1 + |NameText(name)|;
    TextThere(s, i, NameText(name), rest);
    assert rest != "" ==> s[e] == s[e..][0];
    if name.Index? {
      OpenIndex(s, i + 1, e, name.index);
      BraceFree(name);
    } else {
      forall j | i + 1 <= j < e ensures IsNameStart(s[j]) || IsDigit(s[j]) {
        assert s[j] == s[i + 1..e][j - i - 1];
      }
      NameEndAt(s, i + 2, e);
      assert s[i + 1] == s[i + 1..e][0];
    }
  }

  lemma OpenIndex(s: string, b: nat, e: nat, k: nat)
    requires b <= e <= |s| && s[b..e] == Digits(k) && (e < |s| ==> s[e] != '}' && s[e] != ':' && !IsDigit(s[e]))
    ensures b < |s| && s[b] == Digits(k)[0] && IsDigit(s[b]) && ParsedName(s, b) == Fail(InvalidFormat)
  {
    DigitsValue(k);
    DigitsLead(k);
    forall i | b <= i < e ensures IsDigit(s[i]) { assert s[i] == s[b..e][i - b]; }
    DigitsEndAt(s, b, e);
    assert s[b] == s[b..e][0];
    if k == 0 { assert |Digits(0)| == 1; }
    hide Digits, Value, DigitsEnd;
  }

  /** Whatever a string begins with, what breaks off gives its error. */
  lemma BrokenFormat(h: Handler, pieces: seq<Piece>, tail: string, error: Error)
    requires Agrees(h, [], pieces, tail) && Rendered(h, [], pieces).Ok?
    requires Broken(h, Uses(Rendered(h, [], pieces).value), tail, error)
    ensures Scan(h, Written(pieces) + tail, 0, []) == Fail(error)
  {
    hide Scan, Agrees, Rendered, Written, Broken, Uses;
    var s, all := Written(pieces) + tail, Rendered(h, [], pieces).value;
    ScanFront(h, pieces, tail);
    assert s[|s| - |tail|..] == tail;
    BrokenField(h, s, |s| - |tail|, all, error);
  }
}
