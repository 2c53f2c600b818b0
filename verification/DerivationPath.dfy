/**
 Derivation paths of hierarchical deterministic wallets: the text form m/44'/60'/0'/0 and the
 sequence of 32-bit components it stands for, where a hardened component carries the top bit
 (section "Extended keys" of BIP-32).
 */
module DerivationPath {
  import opened BlockTree
  import opened PathText
  import opened Numerals

  const HARDENED: nat := 0x8000_0000
  const MAX_UINT32: nat := 0xFFFF_FFFF

  type uint32 = x: nat | x <= MAX_UINT32

  const DEFAULT_ROOT: seq<uint32> := [HARDENED + 44, HARDENED + 60, HARDENED, 0]

  datatype Error = EmptyPath | AmbiguousPath | InvalidComponent | OutOfRange(hardened: bool)

  datatype Result<+T> = Ok(value: T) | Err(error: Error)

  // ----- components and paths

  /** A number as a component, if it fits. */
  function InRange(hardened: bool, n: Option<int>): Result<uint32>
  {
    var base := if hardened then HARDENED else 0;
    match n
    case None => Err(InvalidComponent)
    case Some(v) => if v < 0 || v > MAX_UINT32 - base then Err(OutOfRange(hardened)) else Ok(base + v)
  }

  /** One component, with surrounding white space and an optional hardening mark. */
  function ParseComponent(text: string): Result<uint32>
  {
    var t := TrimSpace(text);
    var hardened := t != [] && t[|t| - 1] == '\'';
    InRange(hardened, ParseInt(if hardened then TrimSpace(t[..|t| - 1]) else t))
  }

  /** One more component after the ones parsed so far; the first error stays. */
  function Then(r: Result<seq<uint32>>, next: Result<uint32>): Result<seq<uint32>>
  {
    match r
    case Err(e) => Err(e)
    case Ok(front) =>
      match next
      case Err(e) => Err(e)
      case Ok(c) => Ok(front + [c])
  }

  /** What was parsed one by one, as a whole. */
  function Gather(results: seq<Result<uint32>>): Result<seq<uint32>>
  {
    if results == [] then Ok([]) else Then(Gather(results[..|results| - 1]), results[|results| - 1])
  }

  function ParseEach(parts: seq<string>): (results: seq<Result<uint32>>)
    ensures |results| == |parts| && forall i :: 0 <= i < |parts| ==> results[i] == ParseComponent(parts[i])
  {
    seq(|parts|, i requires 0 <= i < |parts| => ParseComponent(parts[i]))
  }

  function ParseComponents(parts: seq<string>): Result<seq<uint32>>
  {
    Gather(ParseEach(parts))
  }

  /** What was parsed, below a root. */
  function Below(root: seq<uint32>, r: Result<seq<uint32>>): Result<seq<uint32>>
  {
    match r
    case Err(e) => Err(e)
    case Ok(cs) => Ok(root + cs)
  }

  function ParsePath(path: string): Result<seq<uint32>>
  {
    var parts := Split(path);
    var head := TrimSpace(parts[0]);
    if head == "" then Err(AmbiguousPath)
    else if head == "m" then
      if |parts| == 1 then Err(EmptyPath) else ParseComponents(parts[1..])
    else
      Below(DEFAULT_ROOT, ParseComponents(parts))
  }

  /** The parser as it runs: components appended one by one until the first error. */
  method ParseDerivationPath(path: string) returns (r: Result<seq<uint32>>)
    ensures r == ParsePath(path)
  {
    var result: seq<uint32> := [];
    var components := Split(path);
    var head := TrimSpace(components[0]);
    if head == "" {
      return Err(AmbiguousPath);
    } else if head == "m" {
      components := components[1..];
    } else {
      result := DEFAULT_ROOT;
    }
    if |components| == 0 {
      return Err(EmptyPath);
    }
    r := AppendComponents(result, components);
    if head == "m" && r.Ok? {
      assert [] + ParseComponents(components).value == ParseComponents(components).value;
    }
  }

  /** All remaining components are relative and appended to what is there. */
  method AppendComponents(root: seq<uint32>, components: seq<string>) returns (r: Result<seq<uint32>>)
    ensures r == Below(root, ParseComponents(components))
  {
    ghost var all := ParseEach(components);
    var result := root;
    assert root + [] == root;
    for i := 0 to |components|
      invariant Below(root, Gather(all[..i])) == Ok(result)
    {
      var c := ParseComponent(components[i]);
      GatherNext(all, i);
      if c.Err? {
        ErrorStays(all, i + 1);
        return Err(c.error);
      }
      ThenBelow(root, Gather(all[..i]), all[i]);
      result := result + [c.value];
    }
    assert all[..|components|] == all;
    r := Ok(result);
  }

  lemma {:induction false} ThenBelow(root: seq<uint32>, r: Result<seq<uint32>>, next: Result<uint32>)
    ensures Then(Below(root, r), next) == Below(root, Then(r, next))
  {
    if r.Ok? && next.Ok? {
      assert root + r.value + [next.value] == root + (r.value + [next.value]);
    }
  }

  lemma {:induction false} GatherNext(results: seq<Result<uint32>>, i: nat)
    requires i < |results|
    ensures Gather(results[..i + 1]) == Then(Gather(results[..i]), results[i])
  {
    assert results[..i + 1][..i] == results[..i];
  }

  /** The first error stays. */
  lemma {:induction false} ErrorStays(results: seq<Result<uint32>>, i: nat)
    requires i <= |results| && Gather(results[..i]).Err?
    ensures Gather(results) == Gather(results[..i])
    decreases |results|
  {
    if i < |results| {
      var front := results[..|results| - 1];
      assert front[..i] == results[..i];
      ErrorStays(front, i);
    } else {
      assert results[..i] == results;
    }
  }

  lemma {:induction false} GatherAppended(a: seq<Result<uint32>>, b: seq<Result<uint32>>, root: seq<uint32>)
    requires Gather(a) == Ok(root)
    ensures Gather(a + b) == Below(root, Gather(b))
    decreases |b|
  {
    if b == [] {
      assert a + b == a && root + [] == root;
    } else {
      var front, last := b[..|b| - 1], b[|b| - 1];
      GatherAppended(a, front, root);
      assert (a + b)[..|a + b| - 1] == a + front;
      ThenBelow(root, Gather(front), last);
    }
  }

  lemma {:induction false} GatherOk(results: seq<Result<uint32>>, path: seq<uint32>)
    requires |results| == |path| && forall i :: 0 <= i < |path| ==> results[i] == Ok(path[i])
    ensures Gather(results) == Ok(path)
    decreases |path|
  {
    if path != [] {
      var last := |path| - 1;
      GatherOk(results[..last], path[..last]);
      assert path[..last] + [path[last]] == path;
    }
  }

  lemma {:induction false} GatheredLength(results: seq<Result<uint32>>)
    requires Gather(results).Ok?
    ensures |Gather(results).value| == |results|
    decreases |results|
  {
    if results != [] {
      GatheredLength(results[..|results| - 1]);
    }
  }

  // ----- printing

  function Render(c: uint32): string
  {
    if c >= HARDENED then Decimal(c - HARDENED) + "'" else Decimal(c)
  }

  function Print(path: seq<uint32>): string
  {
    if path == [] then "m" else Print(path[..|path| - 1]) + "/" + Render(path[|path| - 1])
  }

  /** The printer as it runs. */
  method String(path: seq<uint32>) returns (result: string)
    ensures result == Print(path)
  {
    result := "m";
    for i := 0 to |path|
      invariant result == Print(path[..i])
    {
      assert path[..i + 1][..i] == path[..i];
      var component, hardened := path[i], false;
      if component >= HARDENED {
        component, hardened := component - HARDENED, true;
      }
      result := result + "/" + Decimal(component);
      if hardened {
        result := result + "'";
      }
    }
    assert path[..|path|] == path;
  }

  // ----- parsing what was printed

  /** Digits followed by a hardening mark or by nothing. */
  lemma {:induction false} ParseMarked(digits: string, n: int)
    requires digits != [] && !IsSpace(digits[0]) && Plain(digits[|digits| - 1]) && ParseInt(digits) == Some(n)
    ensures ParseComponent(digits) == InRange(false, Some(n))
    ensures ParseComponent(digits + "'") == InRange(true, Some(n))
  {
    var marked := digits + "'";
    TrimNothing(digits);
    TrimNothing(marked);
    assert marked[..|marked| - 1] == digits;
  }

  lemma {:induction false} NoSlash(c: uint32)
    ensures '/' !in Render(c)
  {
    NumeralShape(if c >= HARDENED then c - HARDENED else c, 10);
  }

  lemma {:induction false} ParseText(text: string, digits: string, n: nat, hardened: bool)
    requires digits != [] && Plain(digits[0]) && Plain(digits[|digits| - 1])
    requires ParseInt(digits) == Some(n) && n <= if hardened then MAX_UINT32 - HARDENED else MAX_UINT32
    requires text == if hardened then digits + "'" else digits
    ensures ParseComponent(text) == Ok(n + if hardened then HARDENED else 0)
  {
    ParseMarked(digits, n);
  }

  lemma {:induction false} ParseRendered(c: uint32)
    ensures ParseComponent(Render(c)) == Ok(c)
  {
    var n := if c >= HARDENED then c - HARDENED else c;
    SignedDecimal(n);
    ParseText(Render(c), Decimal(n), n, c >= HARDENED);
  }

  lemma {:induction false} RefusedText(digits: string, n: int)
    requires digits != [] && !IsSpace(digits[0]) && Plain(digits[|digits| - 1]) && ParseInt(digits) == Some(n)
    ensures n < 0 || n > MAX_UINT32 ==> ParseComponent(digits) == Err(OutOfRange(false))
    ensures n < 0 || n >= HARDENED ==> ParseComponent(digits + "'") == Err(OutOfRange(true))
  {
    ParseMarked(digits, n);
  }

  /** A number too large for its component is refused. */
  lemma {:induction false} TooLargeRefused(n: nat)
    ensures n > MAX_UINT32 ==> ParseComponent(Decimal(n)) == Err(OutOfRange(false))
    ensures n >= HARDENED ==> ParseComponent(Decimal(n) + "'") == Err(OutOfRange(true))
  {
    SignedDecimal(n);
    RefusedText(Decimal(n), n);
  }

  /** So is one below zero. */
  lemma {:induction false} NegativeRefused(n: nat)
    requires n > 0
    ensures ParseComponent("-" + Decimal(n)) == Err(OutOfRange(false))
    ensures ParseComponent("-" + Decimal(n) + "'") == Err(OutOfRange(true))
  {
    var below: int := 0 - n;
    SignedDecimal(n);
    RefusedText("-" + Decimal(n), below);
  }

  function RenderAll(path: seq<uint32>): (parts: seq<string>)
    ensures |parts| == |path| && forall i :: 0 <= i < |path| ==> parts[i] == Render(path[i])
  {
    if path == [] then [] else RenderAll(path[..|path| - 1]) + [Render(path[|path| - 1])]
  }

  lemma {:induction false} SplitPrinted(path: seq<uint32>)
    ensures Split(Print(path)) == ["m"] + RenderAll(path)
    decreases |path|
  {
    if path == [] {
      SplitPart("m", []);
    } else {
      var front, c := path[..|path| - 1], path[|path| - 1];
      SplitPrinted(front);
      NoSlash(c);
      SplitJoined(Print(front), Render(c));
      SplitPart(Render(c), []);
    }
  }

  lemma {:induction false} ParseRenderedAll(path: seq<uint32>)
    ensures ParseComponents(RenderAll(path)) == Ok(path)
  {
    forall i | 0 <= i < |path|
      ensures ParseEach(RenderAll(path))[i] == Ok(path[i])
    {
      ParseRendered(path[i]);
    }
    GatherOk(ParseEach(RenderAll(path)), path);
  }

  lemma {:induction false} ParseAbsolute(s: string, parts: seq<string>)
    requires Split(s) == ["m"] + parts
    ensures ParsePath(s) == if parts == [] then Err(EmptyPath) else ParseComponents(parts)
  {
    TrimNothing("m");
    assert Split(s)[1..] == parts;
  }

  /** Parsing a printed path gives the path back, except for the empty path, whose printed form "m"
      is refused. */
  lemma {:induction false} RoundTrip(path: seq<uint32>)
    ensures ParsePath(Print(path)) == Ok(path) <==> path != []
    ensures path == [] ==> ParsePath(Print(path)) == Err(EmptyPath)
  {
    SplitPrinted(path);
    ParseRenderedAll(path);
    ParseAbsolute(Print(path), RenderAll(path));
  }

  /** Whatever text was accepted, printing it in canonical form and parsing that changes nothing. */
  lemma {:induction false} CanonicalFormStable(text: string)
    requires ParsePath(text).Ok?
    ensures ParsePath(Print(ParsePath(text).value)) == ParsePath(text)
  {
    var parts := Split(text);
    if TrimSpace(parts[0]) == "m" {
      GatheredLength(ParseEach(parts[1..]));
    }
    RoundTrip(ParsePath(text).value);
  }

  // ----- relative paths

  lemma {:induction false} EachAppended(a: seq<string>, b: seq<string>)
    ensures ParseEach(a + b) == ParseEach(a) + ParseEach(b)
  {
  }

  lemma {:induction false} ParseAppended(a: seq<string>, b: seq<string>, root: seq<uint32>)
    requires ParseComponents(a) == Ok(root)
    ensures ParseComponents(a + b) == Below(root, ParseComponents(b))
  {
    EachAppended(a, b);
    GatherAppended(ParseEach(a), ParseEach(b), root);
  }

  lemma {:induction false} RootText()
    ensures Print(DEFAULT_ROOT) == "m" + "/44'" + "/60'" + "/0'" + "/0"
  {
    assert Decimal(44) == "44" && Decimal(60) == "60" && Decimal(0) == "0";
    PrintFour(HARDENED + 44, HARDENED + 60, HARDENED, 0);
    assert "/" + Render(HARDENED + 44) == "/44'" && "/" + Render(HARDENED + 60) == "/60'";
    assert "/" + Render(HARDENED) == "/0'" && "/" + Render(0) == "/0";
  }

  lemma {:induction false} PrintFour(a: uint32, b: uint32, c: uint32, d: uint32)
    ensures Print([a, b, c, d])
            == "m" + ("/" + Render(a)) + ("/" + Render(b)) + ("/" + Render(c)) + ("/" + Render(d))
  {
    PrintNext([], a);
    PrintNext([a], b);
    PrintNext([a, b], c);
    PrintNext([a, b, c], d);
    assert [] + [a] == [a] && [a] + [b] == [a, b] && [a, b] + [c] == [a, b, c] && [a, b, c] + [d] == [a, b, c, d];
  }

  lemma {:induction false} PrintNext(path: seq<uint32>, c: uint32)
    ensures Print(path + [c]) == Print(path) + ("/" + Render(c))
  {
    var all := path + [c];
    assert all[..|all| - 1] == path && all[|all| - 1] == c;
    assert Print(path) + "/" + Render(c) == Print(path) + ("/" + Render(c));
  }

  /** A path without a prefix stands for the same path below the default root m/44'/60'/0'/0, whatever
      its components are. */
  lemma {:induction false} RelativeIsAppended(text: string)
    requires TrimSpace(Split(text)[0]) != "" && TrimSpace(Split(text)[0]) != "m"
    ensures ParsePath(text) == ParsePath(Print(DEFAULT_ROOT) + "/" + text)
    ensures Print(DEFAULT_ROOT) == "m" + "/44'" + "/60'" + "/0'" + "/0"
  {
    RootText();
    var root, parts, whole := RenderAll(DEFAULT_ROOT), Split(text), Print(DEFAULT_ROOT) + "/" + text;
    SplitJoined(Print(DEFAULT_ROOT), text);
    SplitPrinted(DEFAULT_ROOT);
    assert Split(whole) == ["m"] + (root + parts);
    ParseAbsolute(whole, root + parts);
    ParseRenderedAll(DEFAULT_ROOT);
    ParseAppended(root, parts, DEFAULT_ROOT);
  }

  // ----- white space

  /** White space around a component, and between it and its hardening mark, is ignored. */
  lemma {:induction false} ComponentPadded(left: string, s: string, right: string)
    requires AllSpace(left) && AllSpace(right)
    ensures ParseComponent(left + s + right) == ParseComponent(s)
    ensures ParseComponent(left + s + right + "'") == ParseComponent(s + "'")
  {
    TrimPadded(left, s, right);
    MarkedAlike(s, left + s + right);
  }

  lemma {:induction false} MarkedAlike(s: string, s': string)
    requires TrimSpace(s) == TrimSpace(s')
    ensures ParseComponent(s + "'") == ParseComponent(s' + "'")
  {
    MarkedTrim(s);
    MarkedTrim(s');
  }

  lemma {:induction false} ComponentsPadded(padded: seq<string>, parts: seq<string>)
    requires |padded| == |parts| && forall i :: 0 <= i < |parts| ==> Padded(padded[i], parts[i])
    ensures ParseComponents(padded) == ParseComponents(parts)
  {
    forall i | 0 <= i < |parts|
      ensures ParseEach(padded)[i] == ParseEach(parts)[i]
    {
      var left, right :| AllSpace(left) && AllSpace(right) && padded[i] == left + parts[i] + right;
      ComponentPadded(left, parts[i], right);
    }
    assert ParseEach(padded) == ParseEach(parts);
  }

  /** Two texts whose parts between slashes differ only in white space around them are the same path or
      refused with the same error. */
  lemma {:induction false} SpaceIgnored(padded: string, text: string)
    requires |Split(padded)| == |Split(text)|
    requires forall i :: 0 <= i < |Split(text)| ==> Padded(Split(padded)[i], Split(text)[i])
    ensures ParsePath(padded) == ParsePath(text)
  {
    var a, b := Split(padded), Split(text);
    var left, right :| AllSpace(left) && AllSpace(right) && a[0] == left + b[0] + right;
    TrimPadded(left, b[0], right);
    ComponentsPadded(a, b);
    ComponentsPadded(a[1..], b[1..]);
  }

  /** A path that begins with a slash, or is blank, is refused as ambiguous. */
  lemma {:induction false} AmbiguousRefused(space: string, text: string)
    requires AllSpace(space)
    ensures ParsePath(space) == Err(AmbiguousPath) && ParsePath(space + "/" + text) == Err(AmbiguousPath)
  {
    SplitPart(space, text);
    TrimPadded(space, "", "");
    assert space + "" + "" == space;
  }
}
