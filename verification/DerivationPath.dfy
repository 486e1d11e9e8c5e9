/** Printing and parsing hierarchical derivation paths, accounts/hd.go. */
module DerivationPath {
  datatype Option<T> = None | Some(value: T)

  const HARDENED: nat := 0x8000_0000
  const MAX_UINT32: nat := 0xFFFF_FFFF
  const ROOT: seq<nat> := [HARDENED + 44, HARDENED + 60, HARDENED, 0]

  // ----- Printing -----

  function DigitChar(d: nat): char
    requires d < 10
  {
    '0' + d as char
  }

  /** The decimal form that %d prints. */
  function Decimal(n: nat): string {
    if n < 10 then [DigitChar(n)] else Decimal(n / 10) + [DigitChar(n % 10)]
  }

  /** One component: the index without the hardened bit, and a quote when it was set. */
  function Component(c: nat): string {
    if c >= HARDENED then Decimal(c - HARDENED) + "'" else Decimal(c)
  }

  function Print(path: seq<nat>): string {
    if path == [] then "m" else Print(path[..|path| - 1]) + "/" + Component(path[|path| - 1])
  }

  /** String */
  method String(path: seq<nat>) returns (result: string)
    ensures result == Print(path)
  {
    result := "m";
    for i := 0 to |path|
      invariant result == Print(path[..i])
    {
      var component, hardened := path[i], false;
      if component >= HARDENED {
        component, hardened := component - HARDENED, true;
      }
      result := result + "/" + Decimal(component);
      if hardened {
        result := result + "'";
      }
      assert path[..i + 1][..i] == path[..i];
      assert Print(path[..i + 1]) == Print(path[..i]) + "/" + Component(path[i]);
    }
    assert path[..|path|] == path;
  }

  // ----- Strings -----

  /** strings.Split with a slash. */
  function Split(s: string): (parts: seq<string>)
    ensures parts != []
  {
    if s == [] then [""]
    else if s[0] == '/' then [""] + Split(s[1..])
    else [[s[0]] + Split(s[1..])[0]] + Split(s[1..])[1..]
  }

  predicate IsSpace(c: char) {
    || c == ' ' || '\t' <= c <= '\r' || c == '\U{85}' || c == '\U{A0}' || c == '\U{1680}'
    || '\U{2000}' <= c <= '\U{200A}' || c == '\U{2028}' || c == '\U{2029}' || c == '\U{202F}'
    || c == '\U{205F}' || c == '\U{3000}'
  }

  /** strings.TrimSpace */
  function Trim(s: string): string {
    if s == [] then s
    else if IsSpace(s[0]) then Trim(s[1..])
    else if IsSpace(s[|s| - 1]) then Trim(s[..|s| - 1])
    else s
  }

  // ----- Numbers, as big.Int.SetString reads them with base 0 -----

  function DigitValue(c: char): nat {
    if '0' <= c <= '9' then (c - '0') as nat
    else if 'a' <= c <= 'z' then (c - 'a') as nat + 10
    else if 'A' <= c <= 'Z' then (c - 'A') as nat + 10
    else 36
  }

  /** The value of a non-empty digit string. */
  function Digits(s: string, base: nat): Option<nat> {
    if s == [] || DigitValue(s[|s| - 1]) >= base then None
    else if |s| == 1 then Some(DigitValue(s[0]))
    else
      var front := Digits(s[..|s| - 1], base);
      if front.None? then None else Some(front.value * base + DigitValue(s[|s| - 1]))
  }

  /** A prefix selects hexadecimal, binary or octal. */
  function Unsigned(s: string): Option<nat> {
    if s == [] then None
    else if s[0] != '0' then Digits(s, 10)
    else if |s| == 1 then Some(0)
    else if s[1] == 'x' || s[1] == 'X' then Digits(s[2..], 16)
    else if s[1] == 'b' || s[1] == 'B' then Digits(s[2..], 2)
    else Digits(s[1..], 8)
  }

  function Number(s: string): Option<int> {
    if s != [] && (s[0] == '+' || s[0] == '-') then
      var n := Unsigned(s[1..]);
      if n.None? then None
      else
        var v: int := n.value;
        Some(if s[0] == '-' then -v else v)
    else
      var n := Unsigned(s);
      if n.None? then None else Some(n.value)
  }

  // ----- Parsing -----

  /** The index, if it is in range. */
  function InRange(start: nat, number: Option<int>): Option<nat> {
    if number.None? || number.value < 0 || number.value > MAX_UINT32 - start then None
    else Some(start + number.value)
  }

  function ParseTrimmed(text: string): Option<nat> {
    if text != [] && text[|text| - 1] == '\'' then InRange(HARDENED, Number(Trim(text[..|text| - 1])))
    else InRange(0, Number(text))
  }

  function ParseComponent(text: string): Option<nat> { ParseTrimmed(Trim(text)) }

  /** All components, or nothing if one is malformed. */
  function ParseAll(parts: seq<string>): Option<seq<nat>> {
    if parts == [] then Some([]) else Then(ParseAll(parts[..|parts| - 1]), ParseComponent(parts[|parts| - 1]))
  }

  function Then(front: Option<seq<nat>>, last: Option<nat>): Option<seq<nat>> {
    if front.None? || last.None? then None else Some(front.value + [last.value])
  }

  function Parse(path: string): Option<seq<nat>> {
    var parts := Split(path);
    if Trim(parts[0]) == "" then None
    else if Trim(parts[0]) == "m" then
      if |parts| == 1 then None else Onto([], ParseAll(parts[1..]))
    else Onto(ROOT, ParseAll(parts))
  }

  /** Relative paths are appended to the default root. */
  function Onto(start: seq<nat>, rest: Option<seq<nat>>): Option<seq<nat>> {
    if rest.None? then None else Some(start + rest.value)
  }

  lemma {:induction false} PrefixFails(parts: seq<string>, i: nat)
    requires i <= |parts| && ParseAll(parts[..i]).None?
    ensures ParseAll(parts).None?
  {
    if i < |parts| {
      assert parts[..|parts| - 1][..i] == parts[..i];
      PrefixFails(parts[..|parts| - 1], i);
    } else {
      assert parts[..i] == parts;
    }
  }

  /** The loop over the components, which are appended one by one. */
  method AppendAll(start: seq<nat>, components: seq<string>) returns (result: Option<seq<nat>>)
    ensures result == Onto(start, ParseAll(components))
  {
    var values := start;
    ghost var parsed := [];
    for i := 0 to |components|
      invariant ParseAll(components[..i]) == Some(parsed) && values == start + parsed
    {
      AllStep(components[..i], components[i]);
      assert components[..i + 1] == components[..i] + [components[i]];
      var value := ParseOne(components[i]);
      if value.None? {
        PrefixFails(components, i + 1);
        return None;
      }
      values := values + [value.value];
      parsed := parsed + [value.value];
    }
    assert components[..|components|] == components;
    return Some(values);
  }

  /** ParseDerivationPath */
  method ParseDerivationPath(path: string) returns (result: Option<seq<nat>>)
    ensures result == Parse(path)
  {
    var components, start := Split(path), [];
    if Trim(components[0]) == "" {
      return None;
    } else if Trim(components[0]) == "m" {
      components := components[1..];
    } else {
      start := ROOT;
    }
    if components == [] { return None; }
    result := AppendAll(start, components);
  }

  /** The body of its loop. */
  method ParseOne(text: string) returns (result: Option<nat>)
    ensures result == ParseComponent(text)
  {
    var component := Trim(text);
    var value: nat := 0;
    if component != [] && component[|component| - 1] == '\'' {
      value := HARDENED;
      component := Trim(component[..|component| - 1]);
    }
    var bigval := Number(component);
    if bigval.None? || bigval.value < 0 || bigval.value > MAX_UINT32 - value { return None; }
    return Some(value + bigval.value);
  }

  // ----- The round trip -----

  lemma {:induction false} DecimalDigits(n: nat)
    ensures Decimal(n) != [] && (forall c :: c in Decimal(n) ==> '0' <= c <= '9')
    ensures n > 0 ==> Decimal(n)[0] != '0'
  {
    if n >= 10 { DecimalDigits(n / 10); }
  }

  lemma DigitRound(d: nat)
    requires d < 10
    ensures DigitValue(DigitChar(d)) == d
  {
  }

  lemma DigitsStep(front: string, c: char, base: nat)
    requires front != [] && Digits(front, base).Some? && DigitValue(c) < base
    ensures Digits(front + [c], base) == Some(Digits(front, base).value * base + DigitValue(c))
  {
    assert (front + [c])[..|front|] == front;
  }

  lemma {:induction false} DecimalValue(n: nat)
    ensures Digits(Decimal(n), 10) == Some(n)
  {
    if n >= 10 {
      DecimalValue(n / 10);
      DecimalDigits(n / 10);
      DigitRound(n % 10);
      DigitsStep(Decimal(n / 10), DigitChar(n % 10), 10);
    } else {
      DigitRound(n);
    }
  }

  lemma DecimalNumber(n: nat)
    ensures Number(Decimal(n)) == Some(n)
  {
    DecimalDigits(n);
    DecimalValue(n);
    assert Decimal(n)[0] in Decimal(n);
    if n == 0 { assert Decimal(n) == "0"; }
  }

  /** Text without white space at either end is not trimmed. */
  lemma Untrimmed(s: string)
    requires s != [] && !IsSpace(s[0]) && !IsSpace(s[|s| - 1])
    ensures Trim(s) == s
  {
  }

  lemma PlainParses(s: string, n: nat)
    requires s != [] && Trim(s) == s && s[|s| - 1] != '\'' && Number(s) == Some(n)
    ensures ParseComponent(s) == if n <= MAX_UINT32 then Some(n) else None
  {
  }

  lemma HardParses(s: string, n: nat)
    requires Trim(s) == s && Trim(s + "'") == s + "'" && Number(s) == Some(n) && n <= MAX_UINT32 - HARDENED
    ensures ParseComponent(s + "'") == Some(HARDENED + n)
  {
    assert (s + "'")[..|s|] == s;
  }

  lemma ComponentParses(c: nat)
    requires c <= MAX_UINT32
    ensures ParseComponent(Component(c)) == Some(c)
  {
    var n := if c >= HARDENED then c - HARDENED else c;
    var digits := Decimal(n);
    DecimalDigits(n);
    DecimalNumber(n);
    assert digits[0] in digits && digits[|digits| - 1] in digits;
    Untrimmed(digits);
    if c >= HARDENED {
      Untrimmed(digits + "'");
      HardParses(digits, n);
    } else {
      PlainParses(digits, n);
    }
  }

  lemma ComponentHasNoSlash(c: nat)
    ensures '/' !in Component(c) && Component(c) != []
  {
    DecimalDigits(if c >= HARDENED then c - HARDENED else c);
  }

  /** Splitting what was joined with slashes. */
  lemma {:induction false} SplitJoined(s: string, t: string)
    requires '/' !in t
    ensures Split(s + "/" + t) == Split(s) + [t]
    decreases |s|
  {
    if s == [] {
      assert "" + "/" + t == "/" + t && ("/" + t)[1..] == t;
      SplitWhole(t);
    } else {
      assert (s + "/" + t)[1..] == s[1..] + "/" + t;
      SplitJoined(s[1..], t);
    }
  }

  lemma {:induction false} SplitWhole(t: string)
    requires '/' !in t
    ensures Split(t) == [t]
  {
    if t != [] {
      SplitWhole(t[1..]);
      assert t[0] in t && [t[0]] + t[1..] == t;
    }
  }

  ghost function Texts(path: seq<nat>): seq<string> {
    if path == [] then [] else Texts(path[..|path| - 1]) + [Component(path[|path| - 1])]
  }

  lemma {:induction false} SplitPrinted(path: seq<nat>)
    ensures Split(Print(path)) == ["m"] + Texts(path)
  {
    if path == [] {
      SplitWhole("m");
    } else {
      SplitPrinted(path[..|path| - 1]);
      ComponentHasNoSlash(path[|path| - 1]);
      SplitJoined(Print(path[..|path| - 1]), Component(path[|path| - 1]));
    }
  }

  lemma AllStep(parts: seq<string>, text: string)
    requires ParseAll(parts).Some?
    ensures ParseAll(parts + [text]) ==
      if ParseComponent(text).None? then None else Some(ParseAll(parts).value + [ParseComponent(text).value])
  {
    assert (parts + [text])[..|parts|] == parts;
  }

  ghost predicate Reads(text: string, c: nat) { ParseComponent(text) == Some(c) }

  lemma SplitLast<T>(s: seq<T>)
    requires s != []
    ensures s == s[..|s| - 1] + [s[|s| - 1]]
  {
  }

  lemma LastParses(texts: seq<string>, path: seq<nat>)
    requires |texts| == |path| > 0 && ParseAll(texts[..|path| - 1]) == Some(path[..|path| - 1])
    requires Reads(texts[|path| - 1], path[|path| - 1])
    ensures ParseAll(texts) == Some(path)
  {
    var n := |path| - 1;
    SplitLast(texts);
    SplitLast(path);
    AllStep(texts[..n], texts[n]);
  }

  lemma {:induction false} AllParse(texts: seq<string>, path: seq<nat>)
    requires |texts| == |path| && forall i :: 0 <= i < |path| ==> Reads(texts[i], path[i])
    ensures ParseAll(texts) == Some(path)
  {
    if path != [] {
      var n := |path| - 1;
      AllParse(texts[..n], path[..n]);
      LastParses(texts, path);
    }
  }

  lemma {:induction false} TextsAt(path: seq<nat>, i: nat)
    requires i < |path|
    ensures |Texts(path)| == |path| && Texts(path)[i] == Component(path[i])
  {
    if |path| > 1 { TextsAt(path[..|path| - 1], if i < |path| - 1 then i else 0); }
  }

  lemma ReadsBack(c: nat)
    requires c <= MAX_UINT32
    ensures Reads(Component(c), c)
  {
    ComponentParses(c);
  }

  lemma TextsParse(path: seq<nat>)
    requires forall i :: 0 <= i < |path| ==> path[i] <= MAX_UINT32
    ensures |Texts(path)| == |path| && ParseAll(Texts(path)) == Some(path)
  {
    forall i | 0 <= i < |path| ensures |Texts(path)| == |path| && Reads(Texts(path)[i], path[i]) {
      TextsAt(path, i);
      ReadsBack(path[i]);
    }
    AllParse(Texts(path), path);
  }

  /** Parsing a printed path gives back the path, and only the empty path does not parse. */
  lemma RoundTrip(path: seq<nat>)
    requires forall i :: 0 <= i < |path| ==> path[i] <= MAX_UINT32
    ensures Parse(Print(path)) == if path == [] then None else Some(path)
  {
    SplitPrinted(path);
    TextsParse(path);
    AbsoluteParses(Print(path), Texts(path));
    assert [] + path == path;
  }

  lemma AbsoluteParses(s: string, parts: seq<string>)
    requires Split(s) == ["m"] + parts
    ensures Parse(s) == if parts == [] then None else Onto([], ParseAll(parts))
  {
    Untrimmed("m");
    assert Split(s)[1..] == parts;
  }

  /** Every parsed component fits 32 bits. */
  lemma {:induction false} ParsedFits(parts: seq<string>)
    requires ParseAll(parts).Some?
    ensures |ParseAll(parts).value| == |parts|
    ensures forall i :: 0 <= i < |parts| ==> ParseAll(parts).value[i] <= MAX_UINT32
  {
    if parts != [] { ParsedFits(parts[..|parts| - 1]); }
  }

  /** Printing what was parsed and parsing it again changes nothing: printing is canonical. */
  lemma Canonical(path: string)
    requires Parse(path).Some?
    ensures Parse(Print(Parse(path).value)) == Parse(path)
  {
    var parts := Split(path);
    ParsedFits(if Trim(parts[0]) == "m" then parts[1..] else parts);
    RoundTrip(Parse(path).value);
  }

  // ----- Relative paths, other bases and white space -----

  lemma {:induction false} SplitAbsolute(s: string)
    ensures Split("m/" + s) == ["m"] + Split(s)
  {
    var path, rest := "m/" + s, "/" + s;
    assert path[1..] == rest && rest[1..] == s;
    assert Split(rest) == [""] + Split(s);
    assert ['m'] + "" == "m" && Split(rest)[1..] == Split(s);
  }

  /** A relative path gives the default root followed by what the same text gives behind "m/". */
  lemma RelativeParses(s: string)
    requires Trim(Split(s)[0]) != "" && Trim(Split(s)[0]) != "m"
    ensures Parse(s) == Onto(ROOT, Parse("m/" + s))
  {
    SplitAbsolute(s);
    AbsoluteParses("m/" + s, Split(s));
    if ParseAll(Split(s)).Some? { assert [] + ParseAll(Split(s)).value == ParseAll(Split(s)).value; }
  }

  function BaseDigit(d: nat): char
    requires d < 16
  {
    if d < 10 then '0' + d as char else 'a' + (d - 10) as char
  }

  /** Digits of a base, most significant first: as text, and their value. */
  ghost predicate InBase(ds: seq<nat>, base: nat) { 2 <= base <= 16 && ds != [] && forall i :: 0 <= i < |ds| ==> ds[i] < base }

  function Text(ds: seq<nat>): (s: string)
    requires forall i :: 0 <= i < |ds| ==> ds[i] < 16
    ensures |s| == |ds| && forall i :: 0 <= i < |ds| ==> s[i] == BaseDigit(ds[i])
  {
    seq(|ds|, i requires 0 <= i < |ds| => BaseDigit(ds[i]))
  }

  function Value(ds: seq<nat>, base: nat): nat {
    if ds == [] then 0 else Value(ds[..|ds| - 1], base) * base + ds[|ds| - 1]
  }

  predicate Plain(c: char) { c != '\'' && !IsSpace(c) }

  lemma BaseDigitValue(d: nat)
    requires d < 16
    ensures DigitValue(BaseDigit(d)) == d && Plain(BaseDigit(d)) && (d < 8 ==> '0' <= BaseDigit(d) <= '7')
  {
  }

  lemma {:induction false} BasedDigits(ds: seq<nat>, base: nat)
    requires InBase(ds, base)
    ensures Digits(Text(ds), base) == Some(Value(ds, base))
  {
    var n := |ds| - 1;
    BaseDigitValue(ds[n]);
    assert Text(ds) == Text(ds[..n]) + [BaseDigit(ds[n])];
    if n > 0 {
      BasedDigits(ds[..n], base);
      DigitsStep(Text(ds[..n]), BaseDigit(ds[n]), base);
    }
  }

  function Prefix(base: nat): string { if base == 16 then "0x" else if base == 2 then "0b" else "0" }

  /** Digits behind the prefix of their base give their value. */
  lemma BasedNumber(ds: seq<nat>, base: nat)
    requires InBase(ds, base) && (base == 2 || base == 8 || base == 16)
    ensures Number(Prefix(base) + Text(ds)) == Some(Value(ds, base))
  {
    BasedDigits(ds, base);
    BaseDigitValue(ds[0]);
    var digits := Text(ds);
    var s := Prefix(base) + digits;
    assert s[0] == '0' && s[|Prefix(base)|..] == digits && s[|Prefix(base)|] == digits[0];
    assert Unsigned(s) == Digits(digits, base);
  }

  lemma {:induction false} TrimFront(pad: string, s: string)
    requires forall c :: c in pad ==> IsSpace(c)
    ensures Trim(pad + s) == Trim(s)
  {
    if pad == [] {
      assert pad + s == s;
    } else {
      assert pad[0] in pad && (pad + s)[1..] == pad[1..] + s;
      TrimFront(pad[1..], s);
    }
  }

  lemma {:induction false} TrimBack(s: string, pad: string)
    requires forall c :: c in pad ==> IsSpace(c)
    ensures Trim(s + pad) == Trim(s)
    decreases |s| + |pad|
  {
    if pad == [] {
      assert s + pad == s;
    } else if s == [] {
      assert s + pad == pad + [];
      TrimFront(pad, []);
    } else if IsSpace(s[0]) {
      assert (s + pad)[1..] == s[1..] + pad;
      TrimBack(s[1..], pad);
    } else {
      var n := |pad| - 1;
      assert pad[n] in pad && (s + pad)[..|s| + n] == s + pad[..n];
      TrimBack(s, pad[..n]);
    }
  }

  /** White space around a component is ignored. */
  lemma PaddedParses(front: string, text: string, back: string)
    requires forall c :: c in front || c in back ==> IsSpace(c)
    ensures ParseComponent(front + text + back) == ParseComponent(text)
  {
    TrimBack(front + text, back);
    TrimFront(front, text);
  }

  lemma {:induction false} QuoteTrimmed(s: string)
    ensures var t := Trim(s + "'"); t != [] && t[|t| - 1] == '\'' && Trim(t[..|t| - 1]) == Trim(s)
  {
    if s == [] {
      assert s + "'" == "'" && Trim("'") == "'";
    } else if IsSpace(s[0]) {
      assert (s + "'")[1..] == s[1..] + "'";
      QuoteTrimmed(s[1..]);
    } else {
      Untrimmed(s + "'");
      assert (s + "'")[..|s|] == s;
    }
  }

  lemma QuotedReads(t: string, n: nat)
    requires t != [] && t[|t| - 1] == '\'' && Number(Trim(t[..|t| - 1])) == Some(n)
    ensures ParseTrimmed(t) == if n <= MAX_UINT32 - HARDENED then Some(HARDENED + n) else None
  {
  }

  /** A component with a quote, white space inside or not, is the hardened number. */
  lemma HardReads(s: string, n: nat)
    requires Number(Trim(s)) == Some(n)
    ensures ParseComponent(s + "'") == if n <= MAX_UINT32 - HARDENED then Some(HARDENED + n) else None
  {
    QuoteTrimmed(s);
    QuotedReads(Trim(s + "'"), n);
  }

  /** The text is this index, and with a quote the hardened one, each if it fits. */
  ghost predicate ReadsBothWays(text: string, n: nat) {
    && ParseComponent(text) == (if n <= MAX_UINT32 then Some(n) else None)
    && ParseComponent(text + "'") == (if n <= MAX_UINT32 - HARDENED then Some(HARDENED + n) else None)
  }

  lemma TextReads(text: string, n: nat)
    requires text != [] && !IsSpace(text[0]) && Plain(text[|text| - 1]) && Number(text) == Some(n)
    ensures ReadsBothWays(text, n)
  {
    Untrimmed(text);
    PlainParses(text, n);
    HardReads(text, n);
  }

  /** Binary, octal and hexadecimal components give the value of their digits, hardened or not,
      and nothing beyond 32 bits is taken. */
  lemma BasedReads(ds: seq<nat>, base: nat)
    requires InBase(ds, base) && (base == 2 || base == 8 || base == 16)
    ensures ReadsBothWays(Prefix(base) + Text(ds), Value(ds, base))
  {
    BasedNumber(ds, base);
    BaseDigitValue(ds[|ds| - 1]);
    var text := Prefix(base) + Text(ds);
    assert text[|text| - 1] == BaseDigit(ds[|ds| - 1]) && text[0] == '0';
    TextReads(text, Value(ds, base));
  }

  /** A text has a value in a base exactly if it consists of digits of that base. */
  lemma {:induction false} DigitsDefined(s: string, base: nat)
    ensures Digits(s, base).Some? <==> s != [] && forall i :: 0 <= i < |s| ==> DigitValue(s[i]) < base
  {
    if |s| > 1 {
      var n := |s| - 1;
      DigitsDefined(s[..n], base);
      assert forall i :: 0 <= i < n ==> s[..n][i] == s[i];
    }
  }

  /** A plus sign changes nothing, and behind a minus sign only zero is an index. */
  lemma SignReads(text: string, n: nat)
    requires Unsigned(text) == Some(n)
    ensures Number("+" + text) == Some(n) && Number("-" + text) == Some(0 - n)
    ensures InRange(0, Number("-" + text)) == if n == 0 then Some(0) else None
  {
    assert ("+" + text)[1..] == text && ("-" + text)[1..] == text;
  }
}
