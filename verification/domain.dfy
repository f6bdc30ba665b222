/**
 * Shared vocabulary of the remediation engine: the asset, node and link
 * records, the device-type, zone and status enumerations, and the small
 * numeric helpers (`clamp`, `median`, JavaScript's `Math.round` and
 * `Math.ceil`) that every stage uses.
 *
 * Numbers are exact `real`s; timestamps are integer milliseconds.
 */
module Domain {

  /** The conventional Some/None datatype; None stands for JavaScript's null/undefined. */
  datatype Option<+T> = None | Some(value: T) {
    /** The `x ?? d` operator. */
    function GetOr(d: T): T {
      match this
      case Some(v) => v
      case None => d
    }
  }

  type Id = string

  // ---------------------------------------------------------------------------
  // Enumerations
  // ---------------------------------------------------------------------------

  /** The eleven device types an asset may declare. */
  const TypeFirewall := "Firewall"
  const TypeRouter := "Router"
  const TypeSwitch := "Switch"
  const TypeServer := "Server"
  const TypeDatabase := "Database"
  const TypeWorkstation := "Workstation"
  const TypeEHR := "EHR"
  const TypePACS := "PACS"
  const TypeHL7 := "HL7 Engine"
  const TypeIoMT := "Medical IoT"
  const TypeWiFiAP := "WiFi AP"

  const DeviceTypes: seq<string> :=
    [TypeFirewall, TypeRouter, TypeSwitch, TypeServer, TypeDatabase, TypeWorkstation,
     TypeEHR, TypePACS, TypeHL7, TypeIoMT, TypeWiFiAP]

  /** Letters that "Workstation" does not contain, in either case: it misses the patterns that use them. */
  lemma WorkstationLacks()
    ensures var t := TypeWorkstation;
      'f' !in t && 'F' !in t && 'e' !in t && 'E' !in t && 'd' !in t && 'D' !in t && 'u' !in t && 'U' !in t
  {
  }

  lemma WorkstationLacksMore()
    ensures var t := TypeWorkstation;
      'h' !in t && 'H' !in t && 'p' !in t && 'P' !in t && 'c' !in t && 'C' !in t && 'm' !in t && 'M' !in t
  {
  }

  /** The four network zones. */
  const ZoneExternal := "External"
  const ZoneDMZ := "DMZ / Perimeter"
  const ZoneClinical := "Clinical"
  const ZoneAdmin := "Admin"

  /** Operational status; any status string other than the two degraded ones behaves as Healthy. */
  datatype Status = Healthy | Degraded | Outage

  /** The status multiplier shared by node risk and criticality: outages weigh 1.25, degradations 1.1. */
  function StatusMul(s: Status): (m: real)
    ensures 1.0 <= m <= 1.25
    ensures m == 1.0 <==> s == Healthy
    ensures s == Degraded ==> m == 1.1
    ensures s == Outage ==> m == 1.25
  {
    match s
    case Outage => 1.25
    case Degraded => 1.1
    case Healthy => 1.0
  }

  /** The alert severities, in their declared order. */
  const Severities: seq<string> := ["low", "medium", "high", "critical"]

  /**
   * An asset of the inventory. `deviceType` is the free-form type string,
   * normally one of `DeviceTypes`; optional numeric fields are None when the
   * record leaves them out.
   */
  datatype Asset = Asset(
    id: Id,
    name: string,
    deviceType: string,
    zone: Option<string>,
    status: Status,
    vuln: Option<real>,
    patch: Option<real>,
    businessImpact: Option<real>,
    cves: seq<string>)

  /** A topology node: the id and zone of an asset or of an external stub. */
  datatype Node = Node(id: Id, zone: Option<string>)

  /** A link between two ids; `loss` is the packet-loss fraction. */
  datatype Link = Link(id: string, source: Id, target: Id, loss: real)

  // ---------------------------------------------------------------------------
  // Numeric helpers
  // ---------------------------------------------------------------------------

  function Max(a: real, b: real): real { if a >= b then a else b }
  function Min(a: real, b: real): real { if a <= b then a else b }

  /** `clamp(x, lo, hi) = max(lo, min(hi, x))`. */
  function Clamp(x: real, lo: real, hi: real): (r: real)
    ensures lo <= hi ==> lo <= r <= hi
    ensures lo <= x <= hi ==> r == x
    ensures hi < x && lo <= hi ==> r == hi
    ensures x < lo ==> r == lo
  {
    Max(lo, Min(hi, x))
  }

  /** Clamp into the unit interval. */
  function Clamp01(x: real): (r: real)
    ensures 0.0 <= r <= 1.0
    ensures 0.0 <= x <= 1.0 ==> r == x
    ensures x > 1.0 ==> r == 1.0
    ensures x < 0.0 ==> r == 0.0
  {
    Clamp(x, 0.0, 1.0)
  }

  /** Clamping into the unit interval keeps order. */
  lemma ClampMonotone(x: real, y: real)
    requires x <= y
    ensures Clamp01(x) <= Clamp01(y)
  {
  }

  /** Multiplying by a non-negative factor keeps order. */
  lemma MulMonotone(x: real, y: real, m: real)
    requires x <= y && m >= 0.0
    ensures x * m <= y * m
  {
  }

  /** `Math.round`: the nearest integer, halves rounded up. */
  function Round(x: real): (r: int)
    ensures r as real <= x + 0.5 < r as real + 1.0
  {
    (x + 0.5).Floor
  }

  lemma RoundMonotone(x: real, y: real)
    requires x <= y
    ensures Round(x) <= Round(y)
  {
  }

  lemma RoundOfInt(n: int)
    ensures Round(n as real) == n
  {
  }

  /** `Math.ceil`: the least integer not below x. */
  function Ceil(x: real): (r: int)
    ensures r as real - 1.0 < x <= r as real
  {
    -((-x).Floor)
  }

  /** `Math.ceil(a / b)` for integers with a positive divisor. */
  function CeilDiv(a: int, b: int): (r: int)
    requires b > 0
    ensures (r - 1) * b < a <= r * b
  {
    -((-a) / b)
  }

  // ---------------------------------------------------------------------------
  // Sorting and the median
  // ---------------------------------------------------------------------------

  ghost predicate Sorted(s: seq<real>) {
    forall i, j :: 0 <= i < j < |s| ==> s[i] <= s[j]
  }

  /** Insert x into a sorted sequence, keeping it sorted. */
  function Insert(x: real, t: seq<real>): (r: seq<real>)
    requires Sorted(t)
    ensures Sorted(r)
    ensures multiset(r) == multiset(t) + multiset{x}
    ensures |r| == |t| + 1
  {
    if |t| == 0 || x <= t[0] then [x] + t
    else
      var rest := Insert(x, t[1..]);
      assert t == [t[0]] + t[1..];
      assert forall k :: 0 <= k < |rest| ==> t[0] <= rest[k] by {
        forall k | 0 <= k < |rest| ensures t[0] <= rest[k] {
          assert rest[k] in multiset(rest);
        }
      }
      [t[0]] + rest
  }

  /** The numeric ascending sort `[...a].sort((x, y) => x - y)`, as a fresh sequence. */
  function Sort(s: seq<real>): (r: seq<real>)
    ensures Sorted(r)
    ensures multiset(r) == multiset(s)
    ensures |r| == |s|
  {
    if |s| == 0 then []
    else
      assert s == [s[0]] + s[1..];
      Insert(s[0], Sort(s[1..]))
  }

  /** Two sorted arrangements of the same multiset are the same sequence. */
  lemma {:induction false} SortedUnique(a: seq<real>, b: seq<real>)
    requires Sorted(a) && Sorted(b)
    requires multiset(a) == multiset(b)
    ensures a == b
    decreases |a|
  {
    assert |a| == |multiset(a)| && |b| == |multiset(b)|;
    if |a| > 0 {
      SortedHeads(a, b);
      SameTails(a, b);
      SortedUnique(a[1..], b[1..]);
      assert a == [a[0]] + a[1..] && b == [b[0]] + b[1..];
    }
  }

  /** Two sorted arrangements of the same non-empty multiset start with the same element. */
  lemma SortedHeads(a: seq<real>, b: seq<real>)
    requires Sorted(a) && Sorted(b) && |a| > 0 && |b| > 0
    requires multiset(a) == multiset(b)
    ensures a[0] == b[0]
  {
    assert a[0] in multiset(b);
    assert b[0] in multiset(a);
    var i :| 0 <= i < |b| && b[i] == a[0];
    var j :| 0 <= j < |a| && a[j] == b[0];
    assert b[0] <= b[i];
    assert a[0] <= a[j];
  }

  /** Removing the same first element from two arrangements of one multiset leaves one multiset. */
  lemma SameTails(a: seq<real>, b: seq<real>)
    requires |a| > 0 && |b| > 0 && a[0] == b[0]
    requires multiset(a) == multiset(b)
    ensures multiset(a[1..]) == multiset(b[1..])
  {
    assert a == [a[0]] + a[1..];
    assert b == [b[0]] + b[1..];
    assert multiset(a) == multiset{a[0]} + multiset(a[1..]);
    assert multiset(b) == multiset{b[0]} + multiset(b[1..]);
    assert multiset(a[1..]) == multiset(a) - multiset{a[0]};
    assert multiset(b[1..]) == multiset(b) - multiset{b[0]};
  }

  /** An already ascending sequence sorts to itself. */
  lemma SortOfSorted(a: seq<real>)
    ensures Sorted(a) ==> Sort(a) == a
  {
    if Sorted(a) {
      SortedUnique(Sort(a), a);
    }
  }

  /** Sorting forgets the input order. */
  lemma SortPermutation(a: seq<real>, b: seq<real>)
    requires multiset(a) == multiset(b)
    ensures Sort(a) == Sort(b)
  {
    SortedUnique(Sort(a), Sort(b));
  }

  /**
   * The median of a numeric list: 0 for the empty list, the middle element
   * of the sorted copy for odd length, the mean of the two middle elements
   * for even length. The argument is never modified.
   */
  function Median(a: seq<real>): (r: real)
    ensures |a| == 0 ==> r == 0.0
    ensures |a| > 0 ==> Sort(a)[(|a| - 1) / 2] <= r <= Sort(a)[|a| / 2]
    ensures |a| % 2 == 1 ==> r == Sort(a)[(|a| - 1) / 2]
    ensures |a| > 0 && |a| % 2 == 0 ==> 2.0 * r == Sort(a)[|a| / 2 - 1] + Sort(a)[|a| / 2]
  {
    if |a| == 0 then 0.0 else var s := Sort(a); assert |s| == |a|; Middle(s)
  }

  /**
   * The middle element of a sequence, or the mean of the two middle
   * elements: in a sorted sequence, between the lower and the upper middle.
   */
  function Middle(s: seq<real>): (m: real)
    requires |s| > 0
    ensures Sorted(s) ==> s[(|s| - 1) / 2] <= m <= s[|s| / 2]
    ensures |s| % 2 == 1 ==> m == s[(|s| - 1) / 2]
    ensures |s| % 2 == 0 ==> 2.0 * m == s[|s| / 2 - 1] + s[|s| / 2]
  {
    var lo := (|s| - 1) / 2;
    var hi := |s| / 2;
    if |s| % 2 == 1 then s[lo] else assert lo < hi; (s[lo] + s[hi]) / 2.0
  }

  /** The median does not depend on the order of the samples. */
  lemma MedianPermutation(a: seq<real>, b: seq<real>)
    requires multiset(a) == multiset(b)
    ensures Median(a) == Median(b)
  {
    SortPermutation(a, b);
    assert |Sort(a)| == |a| && |Sort(b)| == |b|;
  }

  /** Every element of the sorted copy is an element of the input. */
  lemma SortElements(a: seq<real>, k: int)
    requires 0 <= k < |a|
    ensures exists i :: 0 <= i < |a| && a[i] == Sort(a)[k]
  {
    var s := Sort(a);
    assert s[k] in multiset(s);
    assert s[k] in multiset(a);
  }

  /** The median lies between any lower and upper bound of the samples. */
  lemma MedianWithin(a: seq<real>, lo: real, hi: real)
    requires |a| > 0
    requires forall i :: 0 <= i < |a| ==> lo <= a[i] <= hi
    ensures lo <= Median(a) <= hi
  {
    var s := Sort(a);
    forall k | 0 <= k < |s| ensures lo <= s[k] <= hi {
      SortElements(a, k);
    }
  }

  /** The median of the empty list is 0, of a non-empty list it lies between the least and greatest sample. */
  lemma MedianBetweenMinMax(a: seq<real>)
    ensures |a| == 0 ==> Median(a) == 0.0
    ensures |a| > 0 ==> (exists i :: 0 <= i < |a| && a[i] <= Median(a))
    ensures |a| > 0 ==> (exists j :: 0 <= j < |a| && Median(a) <= a[j])
  {
    if |a| > 0 {
      var s := Sort(a);
      var lo := (|s| - 1) / 2;
      var hi := |s| / 2;
      assert s[lo] <= Median(a) <= s[hi];
      SortElements(a, lo);
      SortElements(a, hi);
    }
  }

  // ---------------------------------------------------------------------------
  // Case-sensitive substring matching (`String.prototype.includes`)
  // ---------------------------------------------------------------------------

  /** p occurs in s at offset i. */
  ghost predicate SubAt(s: string, p: string, i: int) {
    0 <= i && i + |p| <= |s| && s[i..i + |p|] == p
  }

  /** `s.includes(p)`. */
  function Contains(s: string, p: string): (r: bool)
    ensures r <==> exists i :: SubAt(s, p, i)
    decreases |s|
  {
    if |p| > |s| then false
    else if s[..|p|] == p then
      assert SubAt(s, p, 0);
      true
    else
      var r := Contains(s[1..], p);
      assert r ==> exists i :: SubAt(s, p, i) by {
        if r {
          var i :| SubAt(s[1..], p, i);
          assert s[1..][i..i + |p|] == s[i + 1..i + 1 + |p|];
          assert SubAt(s, p, i + 1);
        }
      }
      assert (exists i :: SubAt(s, p, i)) ==> r by {
        if exists i :: SubAt(s, p, i) {
          var i :| SubAt(s, p, i);
          assert i != 0;
          assert s[1..][i - 1..i - 1 + |p|] == s[i..i + |p|];
          assert SubAt(s[1..], p, i - 1);
        }
      }
      r
  }

  /** A pattern whose first character does not occur in s is not contained in s. */
  lemma NotContained(s: string, p: string)
    requires |p| > 0 && p[0] !in s
    ensures !Contains(s, p)
  {
  }

  // ---------------------------------------------------------------------------
  // Case-insensitive substring matching (the `/pattern/i.test(t)` checks)
  // ---------------------------------------------------------------------------

  /** ASCII lower-casing of one character. */
  function Lower(c: char): char {
    if 'A' <= c <= 'Z' then (c as int + 32) as char else c
  }

  function LowerStr(s: string): string {
    if |s| == 0 then [] else [Lower(s[0])] + LowerStr(s[1..])
  }

  /** Lower-casing a string lower-cases each character in place. */
  lemma {:induction false} LowerStrAt(s: string)
    ensures |LowerStr(s)| == |s|
    ensures forall i :: 0 <= i < |s| ==> LowerStr(s)[i] == Lower(s[i])
    decreases |s|
  {
    if |s| > 0 {
      LowerStrAt(s[1..]);
    }
  }

  /** p occurs in s at offset i, ignoring ASCII case. */
  ghost predicate OccursAt(s: string, p: string, i: int) {
    0 <= i && i + |p| <= |s| && LowerStr(s[i..i + |p|]) == LowerStr(p)
  }

  /** True iff p occurs somewhere in s, ignoring ASCII case (see `ContainsCIMeaning`). */
  function ContainsCI(s: string, p: string): bool
    decreases |s|
  {
    if |p| > |s| then false
    else if LowerStr(s[..|p|]) == LowerStr(p) then true
    else ContainsCI(s[1..], p)
  }

  /** `ContainsCI` finds exactly the offsets where p occurs ignoring case. */
  lemma {:induction false} ContainsCIMeaning(s: string, p: string)
    ensures ContainsCI(s, p) <==> exists i :: OccursAt(s, p, i)
    decreases |s|
  {
    if |p| > |s| {
    } else if LowerStr(s[..|p|]) == LowerStr(p) {
      assert OccursAt(s, p, 0);
    } else {
      ContainsCIMeaning(s[1..], p);
      if ContainsCI(s[1..], p) {
        var i :| OccursAt(s[1..], p, i);
        assert s[1..][i..i + |p|] == s[i + 1..i + 1 + |p|];
        assert OccursAt(s, p, i + 1);
      }
      if exists i :: OccursAt(s, p, i) {
        var i :| OccursAt(s, p, i);
        assert i != 0;
        assert s[1..][i - 1..i - 1 + |p|] == s[i..i + |p|];
        assert OccursAt(s[1..], p, i - 1);
      }
    }
  }

  /**
   * A pattern with a letter that occurs in s in neither case is not
   * contained in s; lo and up are the letter's two cases.
   */
  lemma NotContainedCI(s: string, p: string, j: int, lo: char, up: char)
    requires 0 <= j < |p| && 'A' <= up <= 'Z' && lo as int == up as int + 32
    requires (p[j] == lo || p[j] == up) && lo !in s && up !in s
    ensures !ContainsCI(s, p)
  {
    ContainsCIMeaning(s, p);
    if ContainsCI(s, p) {
      var i :| OccursAt(s, p, i);
      var w := s[i..i + |p|];
      LowerStrAt(w);
      LowerStrAt(p);
      assert Lower(w[j]) == Lower(p[j]);
      LowerCases(w[j], lo, up);
    }
  }

  /** Only the two cases of a letter lower-case to its lower case. */
  lemma LowerCases(c: char, lo: char, up: char)
    requires 'A' <= up <= 'Z' && lo as int == up as int + 32 && Lower(c) == lo
    ensures c == lo || c == up
  {
  }

  /** A pattern that occurs in s at offset i is contained in s. */
  lemma ContainedCI(s: string, p: string, i: int)
    requires 0 <= i && i + |p| <= |s| && s[i..i + |p|] == p
    ensures ContainsCI(s, p)
  {
    ContainsCIMeaning(s, p);
    assert OccursAt(s, p, i);
  }

  /** True iff some pattern of ps occurs in s, ignoring case (a regex alternation). */
  function MatchesAny(s: string, ps: seq<string>): bool {
    if |ps| == 0 then false
    else ContainsCI(s, ps[0]) || MatchesAny(s, ps[1..])
  }

  /** `MatchesAny` holds exactly when one of the patterns is contained. */
  lemma {:induction false} MatchesAnyMeaning(s: string, ps: seq<string>)
    ensures MatchesAny(s, ps) <==> exists k :: 0 <= k < |ps| && ContainsCI(s, ps[k])
    decreases |ps|
  {
    if |ps| > 0 {
      MatchesAnyMeaning(s, ps[1..]);
      if MatchesAny(s, ps[1..]) {
        var k :| 0 <= k < |ps| - 1 && ContainsCI(s, ps[1..][k]);
        assert ContainsCI(s, ps[k + 1]);
      }
      if exists k :: 0 <= k < |ps| && ContainsCI(s, ps[k]) {
        var k :| 0 <= k < |ps| && ContainsCI(s, ps[k]);
        if k > 0 {
          assert ContainsCI(s, ps[1..][k - 1]);
        }
      }
    }
  }

  /**
   * No pattern of ps occurs in t: the letter at js[k] of ps[k], whose two
   * cases are los[k] and ups[k], is absent from t.
   */
  lemma MissGroup(t: string, ps: seq<string>, js: seq<int>, los: seq<char>, ups: seq<char>)
    requires |js| == |ps| && |los| == |ps| && |ups| == |ps|
    requires forall k :: 0 <= k < |ps| ==>
      && 0 <= js[k] < |ps[k]| && 'A' <= ups[k] <= 'Z' && los[k] as int == ups[k] as int + 32
      && (ps[k][js[k]] == los[k] || ps[k][js[k]] == ups[k]) && los[k] !in t && ups[k] !in t
    ensures !MatchesAny(t, ps)
  {
    forall k | 0 <= k < |ps| ensures !ContainsCI(t, ps[k]) {
      NotContainedCI(t, ps[k], js[k], los[k], ups[k]);
    }
    MatchesAnyMeaning(t, ps);
  }

  /** The pattern ps[k] occurs in t at offset i. */
  lemma HitGroup(t: string, ps: seq<string>, k: int, i: int)
    requires 0 <= k < |ps| && 0 <= i && i + |ps[k]| <= |t| && t[i..i + |ps[k]|] == ps[k]
    ensures MatchesAny(t, ps)
  {
    ContainedCI(t, ps[k], i);
    MatchesAnyMeaning(t, ps);
  }

  // ---------------------------------------------------------------------------
  // Decimal rendering of integers (template-literal interpolation)
  // ---------------------------------------------------------------------------

  function DigitChar(d: int): (c: char)
    requires 0 <= d < 10
    ensures '0' <= c <= '9'
  {
    ('0' as int + d) as char
  }

  ghost predicate AllDigits(s: string) {
    forall i :: 0 <= i < |s| ==> '0' <= s[i] <= '9'
  }

  /** The decimal digits of n, without leading zeros. */
  function NatToString(n: nat): (s: string)
    ensures |s| > 0 && AllDigits(s)
    ensures |s| > 1 ==> s[0] != '0'
    decreases n
  {
    if n < 10 then [DigitChar(n)]
    else NatToString(n / 10) + [DigitChar(n % 10)]
  }

  /** Reads back a string of decimal digits. */
  function ParseDigits(s: string): nat
    requires AllDigits(s)
  {
    if |s| == 0 then 0
    else ParseDigits(s[..|s| - 1]) * 10 + (s[|s| - 1] as int - '0' as int)
  }

  /** Rendering a natural number in decimal loses nothing. */
  lemma {:induction false} NatToStringRoundTrip(n: nat)
    ensures ParseDigits(NatToString(n)) == n
    decreases n
  {
    if n >= 10 {
      NatToStringRoundTrip(n / 10);
      var s := NatToString(n);
      assert s[..|s| - 1] == NatToString(n / 10);
    }
  }

  /** Distinct natural numbers render differently. */
  lemma NatToStringInjective(n1: nat, n2: nat)
    requires NatToString(n1) == NatToString(n2)
    ensures n1 == n2
  {
    NatToStringRoundTrip(n1);
    NatToStringRoundTrip(n2);
  }

  /** The length of the run of decimal digits s starts with. */
  function DigitRun(s: string): nat
    decreases |s|
  {
    if |s| > 0 && '0' <= s[0] <= '9' then 1 + DigitRun(s[1..]) else 0
  }

  /** A digit string followed by a non-digit is exactly the leading digit run. */
  lemma {:induction false} DigitRunOf(a: string, x: string)
    requires AllDigits(a) && |x| > 0 && !('0' <= x[0] <= '9')
    ensures DigitRun(a + x) == |a|
    decreases |a|
  {
    if |a| > 0 {
      assert (a + x)[0] == a[0];
      assert (a + x)[1..] == a[1..] + x;
      DigitRunOf(a[1..], x);
    } else {
      assert a + x == x;
    }
  }

  /**
   * Two digit strings each followed by text that starts with a non-digit:
   * the split point is the same, so both parts agree.
   */
  lemma DigitsSplit(a: string, x: string, b: string, y: string)
    requires AllDigits(a) && AllDigits(b)
    requires |x| > 0 && !('0' <= x[0] <= '9') && |y| > 0 && !('0' <= y[0] <= '9')
    requires a + x == b + y
    ensures a == b && x == y
  {
    DigitRunOf(a, x);
    DigitRunOf(b, y);
    assert a == (a + x)[..|a|] && b == (b + y)[..|b|];
    assert x == (a + x)[|a|..] && y == (b + y)[|b|..];
  }

  /**
   * JavaScript's rendering of an integer: a minus sign before the digits of
   * a negative value. The first two clauses unfold the rendering for the
   * proofs that splice numbers into text; the others state its meaning.
   */
  function IntToString(n: int): (s: string)
    ensures n >= 0 ==> s == NatToString(n)
    ensures n < 0 ==> s == "-" + NatToString(-n)
    ensures |s| > 0 && (s[0] == '-' <==> n < 0)
    ensures n >= 0 ==> AllDigits(s) && ParseDigits(s) == n
    ensures n < 0 ==> AllDigits(s[1..]) && ParseDigits(s[1..]) == -n
  {
    if n >= 0 then NatToStringRoundTrip(n); NatToString(n)
    else NatToStringRoundTrip(-n); assert ("-" + NatToString(-n))[1..] == NatToString(-n); "-" + NatToString(-n)
  }

  /** Distinct integers render differently. */
  lemma IntToStringInjective(n1: int, n2: int)
    requires IntToString(n1) == IntToString(n2)
    ensures n1 == n2
  {
  }
}
