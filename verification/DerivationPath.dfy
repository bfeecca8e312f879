/** The BIP-32 derivation path parser and printer of accounts/hd.go. */
module DerivationPaths {
  import opened Basics

  const HARDENED: nat := 0x8000_0000

  /** Components as uint32 values, hardened ones with the top bit set. */
  type Path = seq<nat>

  const DEFAULT_ROOT: Path := [HARDENED + 44, HARDENED + 60, HARDENED, 0]

  datatype Error = Ambiguous | EmptyPath | InvalidComponent | OutOfRange

  datatype Result = Ok(path: Path) | Err(error: Error)

  predicate InU32(p: Path) {
    forall i :: 0 <= i < |p| ==> p[i] <= MAX_U32
  }

  // Printing.

  function DigitChar(d: nat): char
    requires d < 10
  {
    '0' + d as char
  }

  function Digits(n: nat): string {
    if n < 10 then [DigitChar(n)] else Digits(n / 10) + [DigitChar(n % 10)]
  }

  function Component(c: nat): string {
    if c >= HARDENED then Digits(c - HARDENED) + "'" else Digits(c)
  }

  function Tail(p: Path): string {
    if p == [] then "" else "/" + Component(p[0]) + Tail(p[1..])
  }

  /** Canonical text of a path. */
  function ToString(p: Path): string {
    "m" + Tail(p)
  }

  // Parsing.

  function IndexOf(s: string, c: char): (i: nat)
    requires c in s
    ensures i < |s| && s[i] == c && c !in s[..i]
  {
    if s[0] == c then 0
    else
      var i := IndexOf(s[1..], c);
      assert s[..i + 1] == [s[0]] + s[1..][..i];
      i + 1
  }

  /** Pieces between separators, at least one. */
  function Split(s: string): (parts: seq<string>)
    ensures parts != []
    decreases |s|
  {
    if '/' !in s then [s]
    else
      var i := IndexOf(s, '/');
      [s[..i]] + Split(s[i + 1..])
  }

  /** Unicode white space. */
  predicate IsSpace(c: char) {
    || '\t' <= c <= '\r' || c == ' ' || c == '\U{85}' || c == '\U{A0}' || c == '\U{1680}'
    || '\U{2000}' <= c <= '\U{200A}' || c == '\U{2028}' || c == '\U{2029}' || c == '\U{202F}'
    || c == '\U{205F}' || c == '\U{3000}'
  }

  function TrimLeft(s: string): string {
    if s != "" && IsSpace(s[0]) then TrimLeft(s[1..]) else s
  }

  function TrimRight(s: string): string {
    if s != "" && IsSpace(s[|s| - 1]) then TrimRight(s[..|s| - 1]) else s
  }

  function TrimSpace(s: string): string {
    TrimRight(TrimLeft(s))
  }

  /** Value of a digit in bases up to 36; 36 for any other character. */
  function DigitValue(c: char): nat {
    if '0' <= c <= '9' then (c - '0') as nat
    else if 'a' <= c <= 'z' then (c - 'a') as nat + 10
    else if 'A' <= c <= 'Z' then (c - 'A') as nat + 10
    else 36
  }

  /** What precedes the next character of a number: nothing, a digit, or a separator. */
  datatype Prev = Start | Digit | Separator

  /** Scans digits to the end of the string. An underscore may only stand after a digit or prefix and
      before a digit. counted tells whether a digit was read. */
  function Scan(s: string, base: nat, prev: Prev, counted: bool, acc: nat): Option<nat>
    decreases |s|
  {
    if s == "" then if counted && !prev.Separator? then Some(acc) else None
    else if s[0] == '_' then if prev.Digit? then Scan(s[1..], base, Separator, counted, acc) else None
    else if DigitValue(s[0]) >= base then None
    else Scan(s[1..], base, Digit, true, acc * base + DigitValue(s[0]))
  }

  /** An unsigned number with the base taken from its prefix: 0b, 0o, 0x, a leading 0 for octal, else
      decimal. */
  function ParseNat(s: string): Option<nat> {
    if |s| >= 2 && s[0] == '0' then
      if s[1] == 'b' || s[1] == 'B' then Scan(s[2..], 2, Digit, false, 0)
      else if s[1] == 'o' || s[1] == 'O' then Scan(s[2..], 8, Digit, false, 0)
      else if s[1] == 'x' || s[1] == 'X' then Scan(s[2..], 16, Digit, false, 0)
      else Scan(s[1..], 8, Digit, false, 0)
    else Scan(s, 10, Start, false, 0)
  }

  function ParseInt(s: string): Option<int> {
    if s != "" && (s[0] == '+' || s[0] == '-') then
      match ParseNat(s[1..])
      case None => None
      case Some(n) => Some(if s[0] == '-' then 0 - (n as int) else n as int)
    else
      match ParseNat(s)
      case None => None
      case Some(n) => Some(n)
  }

  /** One component, white space ignored. The hardened offset never overflows 32 bits. */
  function ParseComponent(raw: string): (r: Result)
    ensures r.Ok? ==> |r.path| == 1 && r.path[0] <= MAX_U32
  {
    var trimmed := TrimSpace(raw);
    var hardened := trimmed != "" && trimmed[|trimmed| - 1] == '\'';
    var text := if hardened then TrimSpace(trimmed[..|trimmed| - 1]) else trimmed;
    var offset := if hardened then HARDENED else 0;
    match ParseInt(text)
    case None => Err(InvalidComponent)
    case Some(n) => if n < 0 || n > MAX_U32 - offset then Err(OutOfRange) else Ok([offset + n])
  }

  function ParseComponents(parts: seq<string>): (r: Result)
    ensures r.Ok? ==> |r.path| == |parts| && InU32(r.path)
  {
    if parts == [] then Ok([])
    else
      var first := ParseComponent(parts[0]);
      if first.Err? then first
      else
        var rest := ParseComponents(parts[1..]);
        if rest.Err? then rest else Ok(first.path + rest.path)
  }

  /** A path from user input, absolute after "m", relative to the default root otherwise. */
  function Parse(s: string): (r: Result)
    ensures r.Ok? ==> r.path != [] && InU32(r.path)
  {
    var parts := Split(s);
    if TrimSpace(parts[0]) == "" then Err(Ambiguous)
    else if TrimSpace(parts[0]) == "m" then
      if |parts| == 1 then Err(EmptyPath) else ParseComponents(parts[1..])
    else
      var r := ParseComponents(parts);
      if r.Err? then r else Ok(DEFAULT_ROOT + r.path)
  }

  // The round trip.

  predicate IsDigit(c: char) {
    '0' <= c <= '9'
  }

  predicate AllDigits(s: string) {
    forall i :: 0 <= i < |s| ==> IsDigit(s[i])
  }

  /** Decimal value of a digit string, on top of acc. */
  ghost function Value(s: string, acc: nat): nat
    requires AllDigits(s)
  {
    if s == "" then acc else Value(s[1..], acc * 10 + DigitValue(s[0]))
  }

  lemma {:induction false} ValueAppend(s: string, acc: nat, c: char)
    requires AllDigits(s) && IsDigit(c)
    ensures Value(s + [c], acc) == Value(s, acc) * 10 + DigitValue(c)
    decreases |s|
  {
    if s == "" {
      assert Value([c][1..], acc * 10 + DigitValue(c)) == acc * 10 + DigitValue(c);
    } else {
      assert (s + [c])[1..] == s[1..] + [c];
      ValueAppend(s[1..], acc * 10 + DigitValue(s[0]), c);
    }
  }

  lemma {:induction false} ScanDigits(s: string, prev: Prev, acc: nat)
    requires AllDigits(s) && s != ""
    ensures Scan(s, 10, prev, false, acc) == Some(Value(s, acc)) == Scan(s, 10, prev, true, acc)
    decreases |s|
  {
    var next := acc * 10 + DigitValue(s[0]);
    if |s| == 1 {
      assert s[1..] == "";
    } else {
      ScanDigits(s[1..], Digit, next);
    }
  }

  /** Printed decimals are digits without a superfluous leading zero and denote their number. */
  lemma {:induction false} DigitsMeaning(n: nat)
    ensures AllDigits(Digits(n)) && Digits(n) != "" && Value(Digits(n), 0) == n
    ensures n > 0 ==> Digits(n)[0] != '0'
    decreases n
  {
    if n < 10 {
      assert Digits(n)[1..] == "";
    } else {
      DigitsMeaning(n / 10);
      ValueAppend(Digits(n / 10), 0, DigitChar(n % 10));
    }
  }

  /** A printed decimal is never read in another base. */
  lemma ParsePrinted(n: nat)
    ensures ParseInt(Digits(n)) == Some(n)
  {
    DigitsMeaning(n);
    if n >= 10 {
      assert Digits(n) == Digits(n / 10) + [DigitChar(n % 10)];
    }
    ScanDigits(Digits(n), Start, 0);
  }

  lemma TrimNothing(s: string)
    requires s != "" && !IsSpace(s[0]) && !IsSpace(s[|s| - 1])
    ensures TrimSpace(s) == s
  {
  }

  lemma ReadPlain(d: string, n: nat)
    requires d != "" && !IsSpace(d[0]) && !IsSpace(d[|d| - 1]) && d[|d| - 1] != '\''
    requires ParseInt(d) == Some(n) && n <= MAX_U32
    ensures ParseComponent(d) == Ok([n])
  {
    TrimNothing(d);
  }

  lemma ReadHardened(d: string, n: nat)
    requires d != "" && !IsSpace(d[0]) && !IsSpace(d[|d| - 1])
    requires ParseInt(d) == Some(n) && n <= MAX_U32 - HARDENED
    ensures ParseComponent(d + "'") == Ok([HARDENED + n])
  {
    TrimNothing(d);
    TrimNothing(d + "'");
    assert (d + "'")[..|d|] == d;
  }

  lemma ComponentRoundTrip(c: nat)
    requires c <= MAX_U32
    ensures ParseComponent(Component(c)) == Ok([c])
    ensures '/' !in Component(c)
  {
    var n := if c >= HARDENED then c - HARDENED else c;
    DigitsMeaning(n);
    ParsePrinted(n);
    if c >= HARDENED {
      ReadHardened(Digits(n), n);
    } else {
      ReadPlain(Digits(n), n);
    }
  }

  lemma SplitPiece(x: string, t: string)
    requires '/' !in x
    ensures Split(x) == [x]
    ensures Split(x + "/" + t) == [x] + Split(t)
  {
    var s := x + "/" + t;
    assert s[|x|] == '/';
    var i := IndexOf(s, '/');
    forall k | 0 <= k < |x|
      ensures s[k] != '/'
    {
      assert s[k] == x[k];
    }
    forall k | 0 <= k < i
      ensures s[k] != '/'
    {
      assert s[k] in s[..i];
    }
    assert s[..i] == x && s[i + 1..] == t;
  }

  function Printed(p: Path): (r: seq<string>)
    ensures |r| == |p|
  {
    if p == [] then [] else [Component(p[0])] + Printed(p[1..])
  }

  lemma Regroup(a: string, b: string, c: string, d: string)
    ensures a + (b + c + d) == a + b + (c + d)
  {
  }

  /** Splitting a printed tail gives back the printed components. */
  lemma {:induction false} SplitTail(x: string, p: Path)
    requires '/' !in x && InU32(p)
    ensures Split(x + Tail(p)) == [x] + Printed(p)
    decreases |p|
  {
    if p == [] {
      assert x + Tail(p) == x;
      SplitPiece(x, "");
    } else {
      var c, t := Component(p[0]), Tail(p[1..]);
      assert '/' !in c by {
        ComponentRoundTrip(p[0]);
      }
      SplitTail(c, p[1..]);
      Regroup(x, "/", c, t);
      SplitPiece(x, c + t);
      assert Printed(p) == [c] + Printed(p[1..]);
    }
  }

  lemma {:induction false} ParsePrintedPath(p: Path)
    requires InU32(p)
    ensures ParseComponents(Printed(p)) == Ok(p)
    decreases |p|
  {
    if p != [] {
      ComponentRoundTrip(p[0]);
      ParsePrintedPath(p[1..]);
      assert Printed(p)[1..] == Printed(p[1..]);
      assert p == [p[0]] + p[1..];
    }
  }

  /** Printing and parsing give back exactly the nonempty paths. */
  lemma RoundTrip(p: Path)
    requires InU32(p)
    ensures Parse(ToString(p)) == Ok(p) <==> p != []
  {
    SplitTail("m", p);
    ParsePrintedPath(p);
    TrimNothing("m");
    assert Split(ToString(p))[1..] == Printed(p);
  }

  /** Whatever text was parsed, printing the result and parsing again changes nothing. */
  lemma ParsedIsCanonical(s: string)
    requires Parse(s).Ok?
    ensures Parse(ToString(Parse(s).path)) == Parse(s)
  {
    RoundTrip(Parse(s).path);
  }

  /** Different paths print differently. */
  lemma PrintInjective(p: Path, q: Path)
    requires InU32(p) && InU32(q) && ToString(p) == ToString(q)
    ensures p == q
  {
    SplitTail("m", p);
    SplitTail("m", q);
    ParsePrintedPath(p);
    ParsePrintedPath(q);
    assert Printed(p) == ([ "m" ] + Printed(p))[1..] == Printed(q);
  }

  // The loops of the source.

  method ParseDerivationPath(s: string) returns (r: Result)
    ensures r == Parse(s)
  {
    var components := Split(s);
    var result: Path := [];
    if TrimSpace(components[0]) == "" {
      return Err(Ambiguous);
    } else if TrimSpace(components[0]) == "m" {
      components := components[1..];
    } else {
      result := DEFAULT_ROOT;
    }
    if |components| == 0 {
      return Err(EmptyPath);
    }
    r := AppendComponents(result, components);
  }

  /** A path in front of a parse result. */
  ghost function Joined(front: Path, rest: Result): Result {
    if rest.Err? then rest else Ok(front + rest.path)
  }

  lemma JoinFirst(front: Path, first: Path, rest: Result)
    ensures Joined(front, Joined(first, rest)) == Joined(front + first, rest)
  {
    if rest.Ok? {
      assert front + (first + rest.path) == (front + first) + rest.path;
    }
  }

  lemma JoinStep(front: Path, parts: seq<string>, value: nat)
    requires parts != [] && ParseComponent(parts[0]) == Ok([value])
    ensures Joined(front, ParseComponents(parts)) == Joined(front + [value], ParseComponents(parts[1..]))
  {
    JoinFirst(front, [value], ParseComponents(parts[1..]));
  }

  /** One component as the source reads it. */
  method ReadComponent(raw: string) returns (r: Result)
    ensures r == ParseComponent(raw)
  {
    var component := TrimSpace(raw);
    var value: nat := 0;
    if component != "" && component[|component| - 1] == '\'' {
      value := HARDENED;
      component := TrimSpace(component[..|component| - 1]);
    }
    var parsed := ParseInt(component);
    if parsed.None? {
      return Err(InvalidComponent);
    }
    if parsed.value < 0 || parsed.value > MAX_U32 - value {
      return Err(OutOfRange);
    }
    return Ok([value + parsed.value]);
  }

  /** Appends the components one by one. */
  method AppendComponents(root: Path, components: seq<string>) returns (r: Result)
    ensures r == Joined(root, ParseComponents(components))
  {
    var result: Path := root;
    assert components[0..] == components;
    for i := 0 to |components|
      invariant Joined(root, ParseComponents(components)) == Joined(result, ParseComponents(components[i..]))
    {
      r := ReadComponent(components[i]);
      if r.Err? {
        return;
      }
      JoinStep(result, components[i..], r.path[0]);
      assert components[i..][1..] == components[i + 1..];
      result := result + r.path;
    }
    return Ok(result);
  }

  lemma TailStep(s: string, p: Path, i: nat)
    requires i < |p|
    ensures s + Tail(p[i..]) == (s + "/" + Component(p[i])) + Tail(p[i + 1..])
  {
    assert p[i..][1..] == p[i + 1..];
    var c, t := Component(p[i]), Tail(p[i + 1..]);
    assert Tail(p[i..]) == "/" + c + t;
  }

  method String(p: Path) returns (s: string)
    ensures s == ToString(p)
  {
    s := "m";
    assert p[0..] == p;
    for i := 0 to |p|
      invariant s + Tail(p[i..]) == ToString(p)
    {
      TailStep(s, p, i);
      var component, hardened := p[i], false;
      if component >= HARDENED {
        component, hardened := component - HARDENED, true;
      }
      ghost var before := s;
      s := s + "/" + Digits(component);
      if hardened {
        s := s + "'";
      }
      assert s == before + "/" + Component(p[i]);
    }
    assert Tail(p[|p|..]) == "";
  }
}
