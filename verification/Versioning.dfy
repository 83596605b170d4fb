/** API versions: printing, parsing, order, and routing to the best compatible handler. */
module Versioning {
  import opened Wrappers

  const MIN_INT := -0x8000_0000_0000_0000
  const MAX_INT := 0x7fff_ffff_ffff_ffff

  type Int = i: int | MIN_INT <= i <= MAX_INT

  datatype APIVersion = APIVersion(major: Int, minor: Int, patch: Int)

  // ---------------------------------------------------------------------------------------
  // Printing and parsing
  // ---------------------------------------------------------------------------------------

  const DIGITS := "0123456789"

  function Digit(d: nat): char
    requires d < 10
  {
    DIGITS[d]
  }

  predicate IsDigit(c: char) { '0' <= c <= '9' }

  function PrintNat(n: nat): string {
    if n < 10 then [Digit(n)] else PrintNat(n / 10) + [Digit(n % 10)]
  }

  function PrintInt(i: int): string {
    if i < 0 then ['-'] + PrintNat(-i) else PrintNat(i)
  }

  function Print(v: APIVersion): string {
    "v" + PrintInt(v.major) + "." + PrintInt(v.minor) + "." + PrintInt(v.patch)
  }

  predicate AllDigits(s: string) {
    forall i :: 0 <= i < |s| ==> IsDigit(s[i])
  }

  function Value(s: string): nat
    requires AllDigits(s)
  {
    if s == [] then 0 else 10 * Value(s[..|s| - 1]) + (s[|s| - 1] - '0') as int
  }

  /** strconv.Atoi: an optional sign, at least one digit, and a value that fits. */
  function Atoi(s: string): Option<Int> {
    var digits := if s != [] && (s[0] == '+' || s[0] == '-') then s[1..] else s;
    if digits == [] || !AllDigits(digits) then None else
    var magnitude: int := Value(digits);
    var i: int := if s[0] == '-' then -magnitude else magnitude;
    if MIN_INT <= i <= MAX_INT then Some(i) else None
  }

  function TrimPrefix(s: string, c: char): string {
    if s != [] && s[0] == c then s[1..] else s
  }

  /** strings.Split by one character: always at least one part. */
  function Split(s: string, sep: char): (parts: seq<string>)
    ensures |parts| >= 1
  {
    if s == [] then [[]]
    else if s[0] == sep then [[]] + Split(s[1..], sep)
    else var rest := Split(s[1..], sep); [[s[0]] + rest[0]] + rest[1..]
  }

  function AtoiPart(parts: seq<string>, k: nat): Option<Int> {
    if k < |parts| then Atoi(parts[k]) else Some(0)
  }

  /** parseVersion: missing parts are zero, parts after the third are ignored. */
  function Parse(s: string): Option<APIVersion> {
    var parts := Split(TrimPrefix(s, 'v'), '.');
    match (AtoiPart(parts, 0), AtoiPart(parts, 1), AtoiPart(parts, 2))
    case (Some(major), Some(minor), Some(patch)) => Some(APIVersion(major, minor, patch))
    case _ => None
  }

  lemma DigitFacts(d: nat)
    requires d < 10
    ensures IsDigit(Digit(d)) && (Digit(d) - '0') as int == d
  {}

  lemma {:induction false} PrintNatFacts(n: nat)
    ensures PrintNat(n) != [] && AllDigits(PrintNat(n)) && Value(PrintNat(n)) == n
  {
    if n < 10 {
      DigitFacts(n);
      assert PrintNat(n)[..0] == [];
    } else {
      PrintNatFacts(n / 10);
      DigitFacts(n % 10);
      assert PrintNat(n)[..|PrintNat(n)| - 1] == PrintNat(n / 10);
    }
  }

  lemma DigitsAreNothingElse(s: string)
    requires AllDigits(s) && s != []
    ensures s[0] != '-' && s[0] != '+' && s[0] != 'v' && '.' !in s
  {
    assert IsDigit(s[0]);
  }

  lemma AtoiOfDigits(s: string)
    requires AllDigits(s) && s != [] && Value(s) <= MAX_INT
    ensures Atoi(s) == Some(Value(s))
  {
    DigitsAreNothingElse(s);
  }

  lemma AtoiOfNegated(s: string)
    requires AllDigits(s) && s != [] && Value(s) <= MAX_INT + 1
    ensures var magnitude: int := Value(s); Atoi(['-'] + s) == Some(-magnitude)
  {
    assert (['-'] + s)[1..] == s;
  }

  /** Text that Atoi reads as i, and that neither a dot nor a leading v can be mistaken for. */
  ghost predicate ReadsBack(s: string, i: Int) {
    Atoi(s) == Some(i) && '.' !in s && s != [] && s[0] != 'v'
  }

  lemma NaturalReadsBack(n: nat)
    requires n <= MAX_INT
    ensures ReadsBack(PrintNat(n), n)
  {
    PrintNatFacts(n);
    DigitsAreNothingElse(PrintNat(n));
    AtoiOfDigits(PrintNat(n));
  }

  lemma NegatedReadsBack(n: nat, i: Int)
    requires i == -(n as int)
    ensures ReadsBack(['-'] + PrintNat(n), i)
  {
    PrintNatFacts(n);
    DigitsAreNothingElse(PrintNat(n));
    AtoiOfNegated(PrintNat(n));
  }

  lemma AtoiInvertsPrint(i: Int)
    ensures ReadsBack(PrintInt(i), i)
  {
    var magnitude: int := i;
    if i < 0 {
      magnitude := -magnitude;
      NegatedReadsBack(magnitude, i);
      assert PrintInt(i) == ['-'] + PrintNat(magnitude);
    } else {
      NaturalReadsBack(magnitude);
      assert PrintInt(i) == PrintNat(magnitude);
    }
  }

  lemma {:induction false} SplitNoSeparator(s: string, sep: char)
    requires sep !in s
    ensures Split(s, sep) == [s]
  {
    if s != [] {
      SplitNoSeparator(s[1..], sep);
      assert [s[0]] + s[1..] == s;
    }
  }

  lemma {:induction false} SplitAtFirst(s: string, sep: char, rest: string)
    requires sep !in s
    ensures Split(s + [sep] + rest, sep) == [s] + Split(rest, sep)
  {
    if s == [] {
      assert (s + [sep] + rest)[1..] == rest;
    } else {
      assert (s + [sep] + rest)[1..] == s[1..] + [sep] + rest;
      SplitAtFirst(s[1..], sep, rest);
      assert [s[0]] + s[1..] == s;
    }
  }

  lemma SplitThree(a: string, b: string, c: string, sep: char)
    requires sep !in a && sep !in b && sep !in c
    ensures Split(a + [sep] + (b + [sep] + c), sep) == [a, b, c]
  {
    SplitAtFirst(a, sep, b + [sep] + c);
    SplitAtFirst(b, sep, c);
    SplitNoSeparator(c, sep);
  }

  lemma PrintedAsThree(v: APIVersion)
    ensures TrimPrefix(Print(v), 'v')
            == PrintInt(v.major) + ['.'] + (PrintInt(v.minor) + ['.'] + PrintInt(v.patch))
  {
    var a, b, c := PrintInt(v.major), PrintInt(v.minor), PrintInt(v.patch);
    assert Print(v) == ['v'] + (a + ['.'] + (b + ['.'] + c));
  }

  /** parseVersion inverts String, for every version, negative components included. */
  lemma ParseInvertsPrint(v: APIVersion)
    ensures Parse(Print(v)) == Some(v)
  {
    AtoiInvertsPrint(v.major);
    AtoiInvertsPrint(v.minor);
    AtoiInvertsPrint(v.patch);
    PrintedAsThree(v);
    SplitThree(PrintInt(v.major), PrintInt(v.minor), PrintInt(v.patch), '.');
  }

  lemma TrimsV(s: string)
    ensures TrimPrefix("v" + s, 'v') == s
    ensures s != [] && s[0] != 'v' ==> TrimPrefix(s, 'v') == s
  {
    assert ("v" + s)[1..] == s;
  }

  /** With or without the v, a version of one number or two is completed with zeros, and what comes
      after three numbers is ignored. */
  lemma ShortVersionsCompleted(major: Int, minor: Int, patch: Int, rest: string)
    ensures Parse("v" + PrintInt(major)) == Parse(PrintInt(major)) == Some(APIVersion(major, 0, 0))
    ensures var s := PrintInt(major) + "." + PrintInt(minor);
            Parse("v" + s) == Parse(s) == Some(APIVersion(major, minor, 0))
    ensures var s := PrintInt(major) + "." + PrintInt(minor) + "." + PrintInt(patch);
            && Parse("v" + s) == Parse(s) == Some(APIVersion(major, minor, patch))
            && Parse(s + "." + rest) == Some(APIVersion(major, minor, patch))
  {
    var a, b, c := PrintInt(major), PrintInt(minor), PrintInt(patch);
    AtoiInvertsPrint(major);
    AtoiInvertsPrint(minor);
    AtoiInvertsPrint(patch);
    OneNumber(major, a);
    TwoNumbers(major, minor, a, b);
    ThreeNumbers(major, minor, patch, a, b, c);
    MoreNumbers(major, minor, patch, a, b, c, rest);
  }

  lemma OneNumber(major: Int, a: string)
    requires ReadsBack(a, major)
    ensures Parse("v" + a) == Parse(a) == Some(APIVersion(major, 0, 0))
  {
    TrimsV(a);
    SplitNoSeparator(a, '.');
  }

  lemma TwoNumbers(major: Int, minor: Int, a: string, b: string)
    requires ReadsBack(a, major) && ReadsBack(b, minor)
    ensures Parse("v" + (a + "." + b)) == Parse(a + "." + b) == Some(APIVersion(major, minor, 0))
  {
    TrimsV(a + "." + b);
    SplitAtFirst(a, '.', b);
    SplitNoSeparator(b, '.');
    assert a + "." + b == a + ['.'] + b;
  }

  lemma ThreeNumbers(major: Int, minor: Int, patch: Int, a: string, b: string, c: string)
    requires ReadsBack(a, major) && ReadsBack(b, minor) && ReadsBack(c, patch)
    ensures Parse("v" + (a + "." + b + "." + c)) == Parse(a + "." + b + "." + c)
            == Some(APIVersion(major, minor, patch))
  {
    TrimsV(a + "." + b + "." + c);
    SplitThree(a, b, c, '.');
    assert a + "." + b + "." + c == a + ['.'] + (b + ['.'] + c);
  }

  lemma SplitMore(a: string, b: string, c: string, rest: string, sep: char)
    requires sep !in a && sep !in b && sep !in c
    ensures Split(a + [sep] + (b + [sep] + (c + [sep] + rest)), sep) == [a] + ([b] + ([c] + Split(rest, sep)))
  {
    SplitAtFirst(a, sep, b + [sep] + (c + [sep] + rest));
    SplitAtFirst(b, sep, c + [sep] + rest);
    SplitAtFirst(c, sep, rest);
  }

  lemma MoreNumbers(major: Int, minor: Int, patch: Int, a: string, b: string, c: string, rest: string)
    requires ReadsBack(a, major) && ReadsBack(b, minor) && ReadsBack(c, patch)
    ensures Parse(a + "." + b + "." + c + "." + rest) == Some(APIVersion(major, minor, patch))
  {
    var s := a + "." + b + "." + c + "." + rest;
    assert s == a + ['.'] + (b + ['.'] + (c + ['.'] + rest));
    assert TrimPrefix(s, 'v') == s;
    SplitMore(a, b, c, rest, '.');
  }

  /** The printed form itself. */
  lemma PrintSpelledOut(v: APIVersion, n: nat)
    ensures Print(v) == "v" + PrintInt(v.major) + "." + PrintInt(v.minor) + "." + PrintInt(v.patch)
    ensures n < 10 ==> PrintInt(n) == ["0123456789"[n]]
    ensures n >= 10 ==> PrintInt(n) == PrintInt(n / 10) + ["0123456789"[n % 10]]
    ensures n > 0 ==> PrintInt(-(n as int)) == "-" + PrintInt(n)
  {
    assert ("-" + PrintNat(n))[1..] == PrintNat(n);
  }

  /** No text, a letter, a bare sign, a missing number or one that does not fit is no version. */
  lemma NotVersions(n: nat)
    ensures Parse("") == None && Parse("v") == None && Parse("x") == None && Parse("-") == None && Parse("1.") == None
    ensures n > 9223372036854775807 ==> Parse(PrintNat(n)) == None
  {
    SplitNoSeparator("", '.');
    SplitNoSeparator("x", '.');
    SplitNoSeparator("-", '.');
    assert TrimPrefix("v", 'v') == "" && "-"[1..] == "";
    SplitAtFirst("1", '.', "");
    assert "1" + ['.'] + "" == "1.";
    if n > 9223372036854775807 {
      TooLarge(n);
    }
  }

  /** A plus sign is allowed. */
  lemma PlusAllowed(n: nat)
    requires n <= 9223372036854775807
    ensures Parse("+" + PrintNat(n)) == Some(APIVersion(n, 0, 0))
  {
    var s := "+" + PrintNat(n);
    PrintNatFacts(n);
    DigitsAreNothingElse(PrintNat(n));
    assert s[1..] == PrintNat(n) && '.' !in s;
    SplitNoSeparator(s, '.');
  }

  lemma TooLarge(n: nat)
    requires n > 9223372036854775807
    ensures Parse(PrintNat(n)) == None
  {
    PrintNatFacts(n);
    DigitsAreNothingElse(PrintNat(n));
    SplitNoSeparator(PrintNat(n), '.');
  }

  lemma PrintInjective(v: APIVersion, w: APIVersion)
    requires Print(v) == Print(w)
    ensures v == w
  {
    ParseInvertsPrint(v);
    ParseInvertsPrint(w);
  }

  // ---------------------------------------------------------------------------------------
  // Order and compatibility
  // ---------------------------------------------------------------------------------------

  function Compare(v: APIVersion, w: APIVersion): int {
    if v.major != w.major then (if v.major < w.major then -1 else 1)
    else if v.minor != w.minor then (if v.minor < w.minor then -1 else 1)
    else if v.patch != w.patch then (if v.patch < w.patch then -1 else 1)
    else 0
  }

  predicate IsCompatibleWith(v: APIVersion, other: APIVersion) {
    v.major == other.major && v.minor >= other.minor
  }

  lemma CompareIsTotalOrder(u: APIVersion, v: APIVersion, w: APIVersion)
    ensures Compare(u, v) in {-1, 0, 1} && Compare(v, u) == -Compare(u, v)
    ensures Compare(u, v) == 0 <==> u == v
    ensures Compare(u, v) <= 0 && Compare(v, w) <= 0 ==> Compare(u, w) <= 0
  {}

  /** Majors decide, then minors, then patches. */
  lemma CompareIsLexicographic(v: APIVersion, w: APIVersion)
    ensures Compare(v, w) < 0 <==>
            v.major < w.major
            || (v.major == w.major && (v.minor < w.minor || (v.minor == w.minor && v.patch < w.patch)))
    ensures IsCompatibleWith(v, w) <==> v.major == w.major && v.minor >= w.minor
  {}

  // ---------------------------------------------------------------------------------------
  // Routing
  // ---------------------------------------------------------------------------------------

  type Handler = nat

  datatype VersionedHandler = VersionedHandler(version: APIVersion, handler: Handler)

  /** The table holds each handler under its version's printed form. */
  ghost predicate Keyed(handlers: map<string, VersionedHandler>) {
    forall key :: key in handlers ==> key == Print(handlers[key].version)
  }

  /** The table as the caller sees it: version to handler. */
  ghost predicate Routes(handlers: map<string, VersionedHandler>, v: APIVersion, h: Handler) {
    exists key :: key in handlers && handlers[key] == VersionedHandler(v, h)
  }

  /** The requested version can be served by this one: same major, and a minor no larger. */
  predicate Serves(v: APIVersion, requested: APIVersion) {
    v.major == requested.major && v.minor <= requested.minor
  }

  /** Of two versions of one major, the second is at least as new. */
  predicate NoNewer(v: APIVersion, w: APIVersion) {
    v.minor < w.minor || (v.minor == w.minor && v.patch <= w.patch)
  }

  /** What the router promises: the exact version if registered, else the greatest registered one
      of the same major and no larger minor, else nothing. */
  ghost predicate IsRoute(handlers: map<string, VersionedHandler>, requested: APIVersion, r: Option<Handler>) {
    if exists h :: Routes(handlers, requested, h) then r.Some? && Routes(handlers, requested, r.value)
    else match r
      case None => forall v, h :: Routes(handlers, v, h) ==> !Serves(v, requested)
      case Some(best) =>
        exists v :: Routes(handlers, v, best) && Serves(v, requested)
                    && forall w, h :: Routes(handlers, w, h) && Serves(w, requested) ==> NoNewer(w, v)
  }

  lemma OneHandlerPerVersion(handlers: map<string, VersionedHandler>, v: APIVersion, g: Handler, h: Handler)
    requires Keyed(handlers) && Routes(handlers, v, g) && Routes(handlers, v, h)
    ensures g == h && Print(v) in handlers && handlers[Print(v)] == VersionedHandler(v, g)
  {}

  /** Whatever the map iteration order, there is only one answer. */
  lemma RoutingDeterministic(handlers: map<string, VersionedHandler>, requested: APIVersion,
                             r: Option<Handler>, s: Option<Handler>)
    requires Keyed(handlers) && IsRoute(handlers, requested, r) && IsRoute(handlers, requested, s)
    ensures r == s
  {
    if h :| Routes(handlers, requested, h) {
      OneHandlerPerVersion(handlers, requested, r.value, s.value);
    } else if r.Some? && s.Some? {
      var v :| Routes(handlers, v, r.value) && Serves(v, requested)
               && forall w, h :: Routes(handlers, w, h) && Serves(w, requested) ==> NoNewer(w, v);
      var w :| Routes(handlers, w, s.value) && Serves(w, requested)
               && forall x, h :: Routes(handlers, x, h) && Serves(x, requested) ==> NoNewer(x, w);
      assert NoNewer(w, v) && NoNewer(v, w);
      OneHandlerPerVersion(handlers, v, r.value, s.value);
    }
  }

  class VersionRouter {
    var handlers: map<string, VersionedHandler>

    ghost predicate Valid()
      reads this
    {
      Keyed(handlers)
    }

    constructor ()
      ensures Valid() && handlers == map[]
    {
      handlers := map[];
    }

    /** Registering a version replaces the handler of that version and of no other. */
    method AddHandler(version: APIVersion, handler: Handler)
      requires Valid()
      modifies this
      ensures Valid() && handlers == old(handlers)[Print(version) := VersionedHandler(version, handler)]
      ensures forall v, h :: Routes(handlers, v, h) <==>
                if v == version then h == handler else Routes(old(handlers), v, h)
    {
      handlers := handlers[Print(version) := VersionedHandler(version, handler)];
      forall v, h
        ensures Routes(handlers, v, h) <==> if v == version then h == handler else Routes(old(handlers), v, h)
      {
        AddedRoutes(old(handlers), version, handler, v, h);
      }
    }

    method FindCompatibleHandler(requested: APIVersion) returns (r: Option<Handler>)
      requires Valid()
      ensures IsRoute(handlers, requested, r)
    {
      if Print(requested) in handlers {
        var found := handlers[Print(requested)];
        PrintInjective(found.version, requested);
        assert Routes(handlers, requested, found.handler);
        return Some(found.handler);
      }
      var best: Option<VersionedHandler> := None;
      var unseen := handlers.Keys;
      while unseen != {}
        invariant unseen <= handlers.Keys
        invariant best.Some? ==> IsCompatibleWith(requested, best.value.version)
                                 && exists key :: key in handlers && handlers[key] == best.value
        invariant forall key :: key in handlers && key !in unseen
                                && IsCompatibleWith(requested, handlers[key].version) ==>
                                  best.Some? && Compare(handlers[key].version, best.value.version) <= 0
        decreases unseen
      {
        var key :| key in unseen;
        var candidate := handlers[key];
        if IsCompatibleWith(requested, candidate.version) {
          if best == None || Compare(candidate.version, best.value.version) > 0 {
            best := Some(candidate);
          }
        }
        unseen := unseen - {key};
      }
      r := if best.Some? then Some(best.value.handler) else None;
      if best.Some? {
        assert Routes(handlers, best.value.version, best.value.handler);
      }
    }
  }

  lemma AddedRoutes(handlers: map<string, VersionedHandler>, version: APIVersion, handler: Handler,
                    v: APIVersion, h: Handler)
    requires Keyed(handlers)
    ensures Routes(handlers[Print(version) := VersionedHandler(version, handler)], v, h)
            <==> if v == version then h == handler else Routes(handlers, v, h)
  {
    var after := handlers[Print(version) := VersionedHandler(version, handler)];
    if Print(v) == Print(version) {
      PrintInjective(v, version);
      assert after[Print(version)] == VersionedHandler(version, handler);
    } else if Routes(handlers, v, h) {
      assert Print(v) in after && after[Print(v)] == VersionedHandler(v, h);
    }
  }
}
