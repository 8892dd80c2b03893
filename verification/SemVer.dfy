/**
  Versions and their precedence as section 11 of Semantic Versioning 2.0.0 defines them, and that the
  hub reads and compares well-formed versions that way.
*/
module SemVer {
  import opened Wrappers
  import opened Strings
  import opened Versions

  datatype Identifier = Numeric(number: nat) | Alphanumeric(text: string)

  /** `build` is the metadata without its plus sign. */
  datatype Semantic = Semantic(major: nat, minor: nat, patch: nat, pre: seq<Identifier>, build: Option<string>)

  predicate IdentifierChar(c: char) { IsDigit(c) || 'A' <= c <= 'Z' || 'a' <= c <= 'z' || c == '-' }

  ghost predicate WellFormedIdentifier(i: Identifier) {
    i.Alphanumeric? ==> i.text != "" && (forall c <- i.text :: IdentifierChar(c)) && !AllDigits(i.text)
  }

  ghost predicate WellFormed(v: Semantic) { forall i <- v.pre :: WellFormedIdentifier(i) }

  predicate CoreFits(v: Semantic) { v.major <= U64_MAX && v.minor <= U64_MAX && v.patch <= U64_MAX }

  ghost predicate Fits(v: Semantic) {
    && CoreFits(v)
    && forall i <- v.pre :: i.Numeric? ==> i.number <= U64_MAX
  }

  /** Lower in ASCII order: at the first difference, or by ending first. */
  ghost predicate LowerText(s: string, t: string) {
    exists k :: 0 <= k <= |s| && k < |t| && s[..k] == t[..k] && (k == |s| || s[k] < t[k])
  }

  /** Numeric identifiers by number, the others in ASCII order, and numeric ones are lower. */
  ghost predicate LowerIdentifier(i: Identifier, j: Identifier) {
    match (i, j)
    case (Numeric(m), Numeric(n)) => m < n
    case (Numeric(_), Alphanumeric(_)) => true
    case (Alphanumeric(_), Numeric(_)) => false
    case (Alphanumeric(s), Alphanumeric(t)) => LowerText(s, t)
  }

  /** Lower at the first identifier that differs; a larger set of them is higher. */
  ghost predicate LowerPre(a: seq<Identifier>, b: seq<Identifier>) { exists k :: LowerPreAt(a, b, k) }

  ghost predicate LowerPreAt(a: seq<Identifier>, b: seq<Identifier>, k: int) {
    0 <= k <= |a| && k < |b| && a[..k] == b[..k] && (k == |a| || LowerIdentifier(a[k], b[k]))
  }

  /** Precedence: build metadata does not figure into it. */
  ghost predicate Lower(a: Semantic, b: Semantic) {
    if a.major != b.major then a.major < b.major
    else if a.minor != b.minor then a.minor < b.minor
    else if a.patch != b.patch then a.patch < b.patch
    else if a.pre == [] then false
    else b.pre == [] || LowerPre(a.pre, b.pre)
  }

  function Digit(n: nat): (c: char)
    requires n < 10
    ensures IsDigit(c) && DigitOf(c) == n
  {
    ('0' as int + n) as char
  }

  /** No leading zeros. */
  function Decimal(n: nat): string {
    if n < 10 then [Digit(n)] else Decimal(n / 10) + [Digit(n % 10)]
  }

  function RenderIdentifier(i: Identifier): string {
    match i
    case Numeric(n) => Decimal(n)
    case Alphanumeric(text) => text
  }

  function Dotted(parts: seq<string>): string
    requires parts != []
    decreases |parts|
  {
    if |parts| == 1 then parts[0] else parts[0] + "." + Dotted(parts[1..])
  }

  function RenderAll(pre: seq<Identifier>): (parts: seq<string>)
    ensures |parts| == |pre|
  {
    seq(|pre|, k requires 0 <= k < |pre| => RenderIdentifier(pre[k]))
  }

  function RenderCore(v: Semantic): string { Dotted([Decimal(v.major), Decimal(v.minor), Decimal(v.patch)]) }

  function RenderPre(v: Semantic): string {
    if v.pre == [] then RenderCore(v) else RenderCore(v) + "-" + Dotted(RenderAll(v.pre))
  }

  function Render(v: Semantic): string {
    if v.build == None then RenderPre(v) else RenderPre(v) + "+" + v.build.value
  }

  /** What the hub makes of it. */
  function Read(v: Semantic): Version { Version(v.major, v.minor, v.patch, RenderAll(v.pre)) }

  lemma {:induction false} DecimalReads(n: nat)
    ensures Decimal(n) != "" && AllDigits(Decimal(n)) && ValueOf(Decimal(n)) == n
  {
    if n >= 10 {
      DecimalReads(n / 10);
      assert Decimal(n)[..|Decimal(n)| - 1] == Decimal(n / 10);
    } else {
      assert ValueOf(Decimal(n)[..0]) == 0;
    }
  }

  lemma {:induction false} SplitWhole(s: string, c: char)
    requires c !in s
    ensures Split(s, c) == [s]
    decreases |s|
  {
    if s != "" {
      SplitWhole(s[1..], c);
      assert s == [s[0]] + s[1..];
    }
  }

  lemma {:induction false} SplitFirst(a: string, b: string, c: char)
    requires c !in a
    ensures Split(a + [c] + b, c) == [a] + Split(b, c)
    decreases |a|
  {
    if a == "" {
      assert (a + [c] + b) == [c] + b && ([c] + b)[1..] == b;
    } else {
      assert (a + [c] + b)[1..] == a[1..] + [c] + b;
      SplitFirst(a[1..], b, c);
      assert a == [a[0]] + a[1..];
    }
  }

  lemma {:induction false} SplitUndoesDotted(parts: seq<string>)
    requires parts != [] && forall p <- parts :: '.' !in p
    ensures Split(Dotted(parts), '.') == parts
    decreases |parts|
  {
    assert parts[0] in parts;
    if |parts| == 1 {
      SplitWhole(parts[0], '.');
    } else {
      assert forall p <- parts[1..] :: p in parts;
      SplitUndoesDotted(parts[1..]);
      SplitFirst(parts[0], Dotted(parts[1..]), '.');
    }
  }

  lemma {:induction false} NotInDotted(parts: seq<string>, c: char)
    requires parts != [] && c != '.' && forall p <- parts :: c !in p
    ensures c !in Dotted(parts)
    decreases |parts|
  {
    assert parts[0] in parts;
    if |parts| > 1 {
      assert forall p <- parts[1..] :: p in parts;
      NotInDotted(parts[1..], c);
    }
  }

  lemma PartIsPlain(i: Identifier)
    requires WellFormedIdentifier(i)
    ensures '.' !in RenderIdentifier(i) && '+' !in RenderIdentifier(i)
  {
    if i.Numeric? {
      DecimalReads(i.number);
    }
  }

  lemma PartsArePlain(pre: seq<Identifier>)
    requires forall i <- pre :: WellFormedIdentifier(i)
    ensures forall p <- RenderAll(pre) :: '.' !in p && '+' !in p
  {
    forall k | 0 <= k < |pre| ensures '.' !in RenderAll(pre)[k] && '+' !in RenderAll(pre)[k] {
      PartIsPlain(pre[k]);
    }
  }

  lemma CoreIsPlain(v: Semantic)
    ensures '-' !in RenderCore(v) && '+' !in RenderCore(v)
    ensures Split(RenderCore(v), '.') == [Decimal(v.major), Decimal(v.minor), Decimal(v.patch)]
  {
    DecimalReads(v.major);
    DecimalReads(v.minor);
    DecimalReads(v.patch);
    var parts := [Decimal(v.major), Decimal(v.minor), Decimal(v.patch)];
    NotInDotted(parts, '-');
    NotInDotted(parts, '+');
    SplitUndoesDotted(parts);
  }

  lemma CoreReads(v: Semantic, pre: seq<string>)
    ensures ParseCore(RenderCore(v), pre) == if CoreFits(v) then Some(Version(v.major, v.minor, v.patch, pre)) else None
  {
    CoreIsPlain(v);
    DecimalReads(v.major);
    DecimalReads(v.minor);
    DecimalReads(v.patch);
  }

  lemma BuildIsDropped(v: Semantic)
    requires WellFormed(v)
    ensures WithoutBuild(Render(v)) == RenderPre(v)
  {
    CoreIsPlain(v);
    if v.pre != [] {
      PartsArePlain(v.pre);
      NotInDotted(RenderAll(v.pre), '+');
    }
    if v.build == None {
      SplitOnceFindsNone(RenderPre(v), '+');
    } else {
      SplitOnceFindsFirst(RenderPre(v), v.build.value, '+');
    }
  }

  /** Every well-formed version is read as what it says, if its three numbers fit, and else not at all. */
  lemma ReadsWhatItSays(v: Semantic)
    requires WellFormed(v)
    ensures Parse(Render(v)) == if CoreFits(v) then Some(Read(v)) else None
  {
    BuildIsDropped(v);
    CoreIsPlain(v);
    if v.pre == [] {
      SplitOnceFindsNone(RenderPre(v), '-');
      CoreReads(v, []);
    } else {
      var parts := RenderAll(v.pre);
      PartsArePlain(v.pre);
      SplitOnceFindsFirst(RenderCore(v), Dotted(parts), '-');
      SplitUndoesDotted(parts);
      CoreReads(v, parts);
    }
  }

  lemma {:induction false} DottedUndoesSplit(s: string)
    ensures Dotted(Split(s, '.')) == s
    decreases |s|
  {
    if s != "" {
      DottedUndoesSplit(s[1..]);
      var rest := Split(s[1..], '.');
      assert s == [s[0]] + s[1..];
      if s[0] == '.' {
        assert ([""] + rest)[1..] == rest;
      } else {
        assert ([[s[0]] + rest[0]] + rest[1..])[1..] == rest[1..];
      }
    }
  }

  /** Three decimal numbers with dots, then perhaps a pre-release, then perhaps build metadata. */
  ghost predicate IsWritten(version: string, parts: seq<string>, pre: Option<string>, build: Option<string>) {
    && |parts| == 3 && (forall p <- parts :: p != "" && AllDigits(p))
    && (pre.Some? ==> '+' !in pre.value)
    && version == Dotted(parts) + (if pre.Some? then "-" + pre.value else "")
                  + (if build.Some? then "+" + build.value else "")
  }

  ghost function ReadParts(parts: seq<string>, pre: Option<string>): Version
    requires |parts| == 3 && forall p <- parts :: AllDigits(p)
  {
    Version(ValueOf(parts[0]), ValueOf(parts[1]), ValueOf(parts[2]), if pre.Some? then Split(pre.value, '.') else [])
  }

  lemma DottedThree(parts: seq<string>)
    requires |parts| == 3 && forall p <- parts :: AllDigits(p)
    ensures '-' !in Dotted(parts) && '+' !in Dotted(parts) && Split(Dotted(parts), '.') == parts
  {
    NotInDotted(parts, '-');
    NotInDotted(parts, '+');
    SplitUndoesDotted(parts);
  }

  function After(s: string, c: char): Option<string> {
    match SplitOnce(s, c)
    case None => None
    case Some((_, after)) => Some(after)
  }

  function Before(s: string, c: char): string {
    match SplitOnce(s, c)
    case None => s
    case Some((before, _)) => before
  }

  lemma CutIs(s: string, c: char)
    ensures s == Before(s, c) + (if After(s, c).Some? then [c] + After(s, c).value else "")
    ensures c !in Before(s, c)
  {
    SplitOnceIs(s, c);
  }

  lemma CutFinds(before: string, after: Option<string>, c: char)
    requires c !in before
    ensures var s := before + if after.Some? then [c] + after.value else "";
            Before(s, c) == before && After(s, c) == after
  {
    if after.Some? {
      SplitOnceFindsFirst(before, after.value, c);
      assert before + ([c] + after.value) == before + [c] + after.value;
    } else {
      SplitOnceFindsNone(before, c);
      assert before + "" == before;
    }
  }

  lemma OfThree(parts: seq<string>)
    requires |parts| == 3 && forall p <- parts :: AllDigits(p)
    ensures (forall p <- parts :: ValueOf(p) <= U64_MAX) <==>
            ValueOf(parts[0]) <= U64_MAX && ValueOf(parts[1]) <= U64_MAX && ValueOf(parts[2]) <= U64_MAX
  {
    assert parts[0] in parts && parts[1] in parts && parts[2] in parts;
  }

  lemma CoreOfThree(parts: seq<string>, pre: seq<string>)
    requires |parts| == 3 && forall p <- parts :: p != "" && AllDigits(p)
    ensures ParseCore(Dotted(parts), pre) ==
            if forall p <- parts :: ValueOf(p) <= U64_MAX
            then Some(Version(ValueOf(parts[0]), ValueOf(parts[1]), ValueOf(parts[2]), pre)) else None
  {
    DottedThree(parts);
    assert parts[0] in parts && parts[1] in parts && parts[2] in parts;
    OfThree(parts);
  }

  /** Whatever is written so is read as its parts, if the numbers fit. */
  lemma WrittenIsRead(version: string, parts: seq<string>, pre: Option<string>, build: Option<string>)
    requires IsWritten(version, parts, pre, build)
    ensures Parse(version) == if forall p <- parts :: ValueOf(p) <= U64_MAX then Some(ReadParts(parts, pre)) else None
  {
    DottedThree(parts);
    var rest := Dotted(parts) + if pre.Some? then "-" + pre.value else "";
    CutFinds(rest, build, '+');
    CutFinds(Dotted(parts), pre, '-');
    CoreOfThree(parts, if pre.Some? then Split(pre.value, '.') else []);
  }

  lemma CoreIsThree(core: string, pre: seq<string>)
    requires ParseCore(core, pre).Some?
    ensures var parts := Split(core, '.');
            && |parts| == 3 && core == Dotted(parts)
            && (forall p <- parts :: p != "" && AllDigits(p) && ValueOf(p) <= U64_MAX)
            && ParseCore(core, pre) == Some(Version(ValueOf(parts[0]), ValueOf(parts[1]), ValueOf(parts[2]), pre))
  {
    DottedUndoesSplit(core);
  }

  /** And nothing else is read. */
  lemma ReadIsWritten(version: string) returns (parts: seq<string>, pre: Option<string>, build: Option<string>)
    requires Parse(version).Some?
    ensures IsWritten(version, parts, pre, build) && (forall p <- parts :: ValueOf(p) <= U64_MAX)
    ensures Parse(version) == Some(ReadParts(parts, pre))
  {
    var rest := Before(version, '+');
    build, pre := After(version, '+'), After(rest, '-');
    var core := Before(rest, '-');
    parts := Split(core, '.');
    CutIs(version, '+');
    CutIs(rest, '-');
    CoreIsThree(core, if pre.Some? then Split(pre.value, '.') else []);
  }

  lemma {:induction false} TextOrderIs(s: string, t: string)
    ensures TextOrder(s, t) == Less <==> LowerText(s, t)
    decreases |s|
  {
    if s != "" && t != "" && s[0] == t[0] {
      TextOrderIs(s[1..], t[1..]);
      if LowerText(s[1..], t[1..]) {
        var k :| 0 <= k <= |s[1..]| && k < |t[1..]| && s[1..][..k] == t[1..][..k] &&
            (k == |s[1..]| || s[1..][k] < t[1..][k]);
        assert s[..k + 1] == [s[0]] + s[1..][..k] && t[..k + 1] == [t[0]] + t[1..][..k];
      }
      if LowerText(s, t) {
        var k :| 0 <= k <= |s| && k < |t| && s[..k] == t[..k] && (k == |s| || s[k] < t[k]);
        assert k > 0 && s[1..][..k - 1] == s[..k][1..] && t[1..][..k - 1] == t[..k][1..];
      }
    } else if s != "" && t != "" {
      if LowerText(s, t) {
        var k :| 0 <= k <= |s| && k < |t| && s[..k] == t[..k] && (k == |s| || s[k] < t[k]);
      }
      assert s[..0] == t[..0];
    } else {
      assert t != "" ==> s[..0] == t[..0];
    }
  }

  // ---------- Where text and number disagree ----------

  function Power10(n: nat): (p: nat)
    ensures p >= 1
  {
    if n == 0 then 1 else 10 * Power10(n - 1)
  }

  lemma {:induction false} Power10Grows(m: nat, n: nat)
    requires m <= n
    ensures Power10(m) <= Power10(n)
  {
    if m < n {
      Power10Grows(m, n - 1);
    }
  }

  lemma {:induction false} DecimalSize(n: nat)
    ensures Decimal(n) != "" && n < Power10(|Decimal(n)|)
    ensures |Decimal(n)| > 1 ==> Power10(|Decimal(n)| - 1) <= n
  {
    if n >= 10 {
      DecimalSize(n / 10);
    }
  }

  lemma ShorterIsSmaller(m: nat, n: nat)
    requires |Decimal(m)| < |Decimal(n)|
    ensures m < n
  {
    DecimalSize(m);
    DecimalSize(n);
    Power10Grows(|Decimal(m)|, |Decimal(n)| - 1);
  }

  lemma {:induction false} TextOrderLast(s: string, t: string, c: char, d: char)
    requires |s| == |t|
    ensures TextOrder(s + [c], t + [d]) == Then(TextOrder(s, t), TextOrder([c], [d]))
    decreases |s|
  {
    if s == "" {
      assert s + [c] == [c] && t + [d] == [d];
    } else {
      assert (s + [c])[1..] == s[1..] + [c] && (t + [d])[1..] == t[1..] + [d];
      TextOrderLast(s[1..], t[1..], c, d);
    }
  }

  lemma OneDigitOrder(c: char, d: char)
    requires IsDigit(c) && IsDigit(d)
    ensures TextOrder([c], [d]) == NumberOrder(DigitOf(c), DigitOf(d))
  {
    assert [c][1..] == "" && [d][1..] == "";
  }

  /** Decimals of one length are in the order of their numbers. */
  lemma {:induction false} SameLengthOrder(s: string, t: string)
    requires |s| == |t| && AllDigits(s) && AllDigits(t)
    ensures TextOrder(s, t) == NumberOrder(ValueOf(s), ValueOf(t))
    decreases |s|
  {
    if s != "" {
      var n := |s| - 1;
      SameLengthOrder(s[..n], t[..n]);
      TextOrderLast(s[..n], t[..n], s[n], t[n]);
      assert s == s[..n] + [s[n]] && t == t[..n] + [t[n]];
      OneDigitOrder(s[n], t[n]);
      assert ValueOf(s) == 10 * ValueOf(s[..n]) + DigitOf(s[n]);
      assert ValueOf(t) == 10 * ValueOf(t[..n]) + DigitOf(t[n]);
    }
  }

  /** One of two numbers has fewer digits, and yet its text is the greater. */
  ghost predicate ShorterIsGreater(s: string, t: string) {
    (|s| < |t| && LowerText(t, s)) || (|t| < |s| && LowerText(s, t))
  }

  /** Two identifiers the hub puts in the wrong order: two numbers above 64 bits of different lengths,
      or such a number and an identifier below it as text. */
  ghost predicate Misread(i: Identifier, j: Identifier) {
    match (i, j)
    case (Numeric(m), Numeric(n)) => m > U64_MAX && n > U64_MAX && ShorterIsGreater(Decimal(m), Decimal(n))
    case (Numeric(m), Alphanumeric(t)) => m > U64_MAX && LowerText(t, Decimal(m))
    case (Alphanumeric(s), Numeric(n)) => n > U64_MAX && LowerText(s, Decimal(n))
    case (Alphanumeric(_), Alphanumeric(_)) => false
  }

  lemma TextOrderBothWays(s: string, t: string)
    ensures TextOrder(s, t) == if LowerText(s, t) then Less else if LowerText(t, s) then Greater else Equal
    ensures TextOrder(s, t) == Equal <==> s == t
  {
    TextOrderIs(s, t);
    TextOrderIs(t, s);
    TextOrderReverses(s, t);
  }

  lemma ShorterIsGreaterIs(s: string, t: string)
    ensures ShorterIsGreater(s, t) <==>
            (|s| < |t| && TextOrder(s, t) == Greater) || (|t| < |s| && TextOrder(s, t) == Less)
  {
    TextOrderBothWays(s, t);
  }

  lemma DigitsAsText(s: string, t: string)
    requires AllDigits(s) && AllDigits(t)
    requires |s| < |t| ==> ValueOf(s) < ValueOf(t)
    requires |t| < |s| ==> ValueOf(t) < ValueOf(s)
    ensures (TextOrder(s, t) == Less <==> ValueOf(s) < ValueOf(t)) <==> !ShorterIsGreater(s, t)
    ensures TextOrder(s, t) == Equal <==> s == t
  {
    ShorterIsGreaterIs(s, t);
    TextOrderReverses(s, t);
    if |s| == |t| {
      SameLengthOrder(s, t);
    }
  }

  lemma DecimalsAsText(m: nat, n: nat)
    ensures (TextOrder(Decimal(m), Decimal(n)) == Less <==> m < n) <==> !ShorterIsGreater(Decimal(m), Decimal(n))
    ensures TextOrder(Decimal(m), Decimal(n)) == Equal <==> m == n
  {
    DecimalReads(m);
    DecimalReads(n);
    if |Decimal(m)| < |Decimal(n)| {
      ShorterIsSmaller(m, n);
    } else if |Decimal(n)| < |Decimal(m)| {
      ShorterIsSmaller(n, m);
    }
    DigitsAsText(Decimal(m), Decimal(n));
  }

  lemma NumbersOrder(m: nat, n: nat)
    ensures var order := IdentifierOrder(Decimal(m), Decimal(n));
            && ((order == Less <==> m < n) <==> !Misread(Numeric(m), Numeric(n)))
            && (order == Equal <==> m == n)
  {
    DecimalReads(m);
    DecimalReads(n);
    DecimalsAsText(m, n);
  }

  lemma MixedOrder(n: nat, text: string)
    requires WellFormedIdentifier(Alphanumeric(text))
    ensures IdentifierOrder(Decimal(n), text) == if Misread(Numeric(n), Alphanumeric(text)) then Greater else Less
    ensures IdentifierOrder(text, Decimal(n)) == if Misread(Alphanumeric(text), Numeric(n)) then Less else Greater
  {
    DecimalReads(n);
    TextOrderBothWays(Decimal(n), text);
    TextOrderReverses(Decimal(n), text);
  }

  /** Exactly the misread pairs are in the wrong order, and only equal identifiers compare equal. */
  lemma IdentifierOrderIff(i: Identifier, j: Identifier)
    requires WellFormedIdentifier(i) && WellFormedIdentifier(j)
    ensures var order := IdentifierOrder(RenderIdentifier(i), RenderIdentifier(j));
            && ((order == Less <==> LowerIdentifier(i, j)) <==> !Misread(i, j))
            && (order == Equal <==> i == j)
  {
    match (i, j)
    case (Numeric(m), Numeric(n)) => NumbersOrder(m, n);
    case (Numeric(m), Alphanumeric(t)) => MixedOrder(m, t);
    case (Alphanumeric(s), Numeric(n)) => MixedOrder(n, s);
    case (Alphanumeric(s), Alphanumeric(t)) => TextOrderBothWays(s, t);
  }

  /** The first difference is a misread one. */
  ghost predicate MisreadAt(a: seq<Identifier>, b: seq<Identifier>, k: int) {
    0 <= k < |a| && k < |b| && a[..k] == b[..k] && Misread(a[k], b[k])
  }

  ghost predicate MisreadPre(a: seq<Identifier>, b: seq<Identifier>) { exists k :: MisreadAt(a, b, k) }

  lemma AlikeFromFirst(a: seq<Identifier>, b: seq<Identifier>, k: nat)
    requires k < |a| && k < |b|
    ensures a[..k + 1] == b[..k + 1] <==> a[0] == b[0] && a[1..][..k] == b[1..][..k]
  {
    assert a[..k + 1] == [a[0]] + a[1..][..k] && b[..k + 1] == [b[0]] + b[1..][..k];
  }

  lemma MisreadLater(a: seq<Identifier>, b: seq<Identifier>, k: nat)
    requires a != [] && b != []
    ensures MisreadAt(a, b, k + 1) <==> a[0] == b[0] && MisreadAt(a[1..], b[1..], k)
  {
    if k < |a| && k < |b| {
      AlikeFromFirst(a, b, k);
    }
  }

  lemma MisreadFromFirst(a: seq<Identifier>, b: seq<Identifier>)
    ensures MisreadPre(a, b) <==>
              a != [] && b != [] && (Misread(a[0], b[0]) || (a[0] == b[0] && MisreadPre(a[1..], b[1..])))
  {
    if a != [] && b != [] {
      assert MisreadAt(a, b, 0) <==> Misread(a[0], b[0]) by {
        assert a[..0] == b[..0];
      }
      forall k: nat ensures MisreadAt(a, b, k + 1) <==> a[0] == b[0] && MisreadAt(a[1..], b[1..], k) {
        MisreadLater(a, b, k);
      }
      if MisreadPre(a, b) {
        var k :| MisreadAt(a, b, k);
        assert k > 0 ==> MisreadAt(a[1..], b[1..], k - 1) by {
          if k > 0 { MisreadLater(a, b, k - 1); }
        }
      }
    }
  }

  lemma LowerLater(a: seq<Identifier>, b: seq<Identifier>, k: nat)
    requires a != [] && b != []
    ensures LowerPreAt(a, b, k + 1) <==> a[0] == b[0] && LowerPreAt(a[1..], b[1..], k)
  {
    if k < |a| && k < |b| {
      AlikeFromFirst(a, b, k);
    }
  }

  /** Lower, looked at from the first identifier. */
  lemma LowerPreFromFirst(a: seq<Identifier>, b: seq<Identifier>)
    ensures LowerPre(a, b) <==>
              if b == [] then false
              else if a == [] then true
              else LowerIdentifier(a[0], b[0]) || (a[0] == b[0] && LowerPre(a[1..], b[1..]))
  {
    if b != [] {
      assert LowerPreAt(a, b, 0) <==> (a == [] || LowerIdentifier(a[0], b[0])) by {
        assert a[..0] == b[..0];
      }
    }
    if a != [] && b != [] {
      forall k: nat ensures LowerPreAt(a, b, k + 1) <==> a[0] == b[0] && LowerPreAt(a[1..], b[1..], k) {
        LowerLater(a, b, k);
      }
      if LowerPre(a, b) {
        var k :| LowerPreAt(a, b, k);
        assert k > 0 ==> LowerPreAt(a[1..], b[1..], k - 1) by {
          if k > 0 { LowerLater(a, b, k - 1); }
        }
      }
    }
  }

  lemma FieldsFromFirst(a: seq<Identifier>, b: seq<Identifier>)
    requires a != [] && b != []
    ensures FieldsOrder(RenderAll(a), RenderAll(b)) ==
            Then(IdentifierOrder(RenderIdentifier(a[0]), RenderIdentifier(b[0])),
                 FieldsOrder(RenderAll(a[1..]), RenderAll(b[1..])))
  {
    assert RenderAll(a)[1..] == RenderAll(a[1..]) && RenderAll(b)[1..] == RenderAll(b[1..]);
  }

  lemma {:induction false} FieldsOrderIff(a: seq<Identifier>, b: seq<Identifier>)
    requires forall i <- a + b :: WellFormedIdentifier(i)
    ensures (FieldsOrder(RenderAll(a), RenderAll(b)) == Less <==> LowerPre(a, b)) <==> !MisreadPre(a, b)
    decreases |a|
  {
    LowerPreFromFirst(a, b);
    MisreadFromFirst(a, b);
    if a != [] && b != [] {
      assert a[0] in a + b && b[0] in a + b;
      IdentifierOrderIff(a[0], b[0]);
      IdentifierOrderIff(a[0], a[0]);
      FieldsFromFirst(a, b);
      assert forall i <- a[1..] + b[1..] :: i in a + b;
      FieldsOrderIff(a[1..], b[1..]);
    }
  }

  ghost predicate SameCore(a: Semantic, b: Semantic) { a.major == b.major && a.minor == b.minor && a.patch == b.patch }

  /** For all well-formed versions whose three numbers fit: newer is the higher precedence of Semantic
      Versioning exactly unless their pre-releases first differ in a misread pair. */
  lemma NewerIsHigherIff(a: Semantic, b: Semantic)
    requires WellFormed(a) && CoreFits(a) && WellFormed(b) && CoreFits(b)
    ensures (IsNewer(Render(a), Render(b)) <==> Lower(b, a)) <==> !(SameCore(a, b) && MisreadPre(b.pre, a.pre))
  {
    ReadsWhatItSays(a);
    ReadsWhatItSays(b);
    OrderIsTotalPreorder(Read(a), Read(b), Read(a));
    FieldsOrderIff(b.pre, a.pre);
    MisreadFromFirst(b.pre, a.pre);
  }

  /** A version one of whose three numbers does not fit is neither newer nor older than anything, whatever
      its precedence. */
  lemma UnreadableIsNeverNewer(a: Semantic, b: Semantic)
    requires WellFormed(a) && WellFormed(b) && !(CoreFits(a) && CoreFits(b))
    ensures !IsNewer(Render(a), Render(b)) && !IsNewer(Render(b), Render(a))
  {
    ReadsWhatItSays(a);
    ReadsWhatItSays(b);
  }

  /** On well-formed versions whose numbers fit in 64 bits, newer is exactly the higher precedence of
      Semantic Versioning. */
  lemma NewerIsHigher(a: Semantic, b: Semantic)
    requires WellFormed(a) && Fits(a) && WellFormed(b) && Fits(b)
    ensures IsNewer(Render(a), Render(b)) <==> Lower(b, a)
  {
    NewerIsHigherIff(a, b);
  }

  lemma DecimalStep(n: nat, tens: nat, ones: nat)
    requires n == 10 * tens + ones && ones < 10 && tens >= 1
    ensures Decimal(n) == Decimal(tens) + [Digit(ones)]
  {
    assert n / 10 == tens && n % 10 == ones;
  }

  /** The number written as `d` and so many zeros. */
  function Rounded(d: nat, zeros: nat): nat { if zeros == 0 then d else 10 * Rounded(d, zeros - 1) }

  lemma {:induction false} RoundedIs(d: nat, zeros: nat)
    requires 0 < d < 10
    ensures Rounded(d, zeros) >= Power10(zeros)
    ensures Decimal(Rounded(d, zeros)) != "" && Decimal(Rounded(d, zeros))[0] == Digit(d)
  {
    if zeros > 0 {
      RoundedIs(d, zeros - 1);
      DecimalStep(Rounded(d, zeros), Rounded(d, zeros - 1), 0);
    }
  }

  lemma {:induction false} NineIsLess(zeros: nat)
    ensures Rounded(9, zeros) < Rounded(1, zeros + 1)
  {
    if zeros > 0 {
      NineIsLess(zeros - 1);
    }
  }

  lemma {:induction false} BeyondU64(zeros: nat)
    requires zeros >= 20
    ensures Power10(zeros) > U64_MAX
  {
    if zeros == 20 {
      assert Power10(5) == 10_0000;
      assert Power10(10) == 100_0000_0000;
      assert Power10(15) == 1000_0000_0000_0000;
    } else {
      BeyondU64(zeros - 1);
    }
  }

  /** The pre-release `1.0.0-<number>`. */
  function Numbered(number: nat): Semantic { Semantic(1, 0, 0, [Numeric(number)], None) }

  lemma NewerAsText(m: nat, n: nat)
    requires m > U64_MAX && n > U64_MAX && Decimal(m) != "" && Decimal(n) != "" && Decimal(m)[0] > Decimal(n)[0]
    ensures IsNewer(Render(Numbered(m)), Render(Numbered(n)))
  {
    DecimalReads(m);
    DecimalReads(n);
    assert IdentifierOrder(Decimal(m), Decimal(n)) == Greater;
    ReadsWhatItSays(Numbered(m));
    ReadsWhatItSays(Numbered(n));
  }

  lemma LowerByNumber(m: nat, n: nat)
    requires m < n
    ensures WellFormed(Numbered(m)) && WellFormed(Numbered(n)) && Lower(Numbered(m), Numbered(n))
  {
    LowerPreFromFirst([Numeric(m)], [Numeric(n)]);
  }

  lemma RoundedText(zeros: nat)
    requires zeros >= 20
    ensures var m, n := Rounded(9, zeros), Rounded(1, zeros + 1);
            U64_MAX < m < n && Decimal(m) != "" && Decimal(n) != "" && Decimal(m)[0] > Decimal(n)[0]
  {
    BeyondU64(zeros);
    BeyondU64(zeros + 1);
    RoundedIs(9, zeros);
    RoundedIs(1, zeros + 1);
    NineIsLess(zeros);
  }

  /** Identifiers that do not fit are compared as text: 9 followed by zeros counts as newer than the
      higher 1 followed by one more. */
  lemma TooBigComparesAsText(zeros: nat)
    requires zeros >= 20
    ensures var low, high := Numbered(Rounded(9, zeros)), Numbered(Rounded(1, zeros + 1));
            WellFormed(low) && WellFormed(high) && Lower(low, high) && IsNewer(Render(low), Render(high))
  {
    var m, n := Rounded(9, zeros), Rounded(1, zeros + 1);
    RoundedText(zeros);
    LowerByNumber(m, n);
    NewerAsText(m, n);
  }
}
