/**
 The risk score of a device: the factors read off its vulnerability rows, the
 capped sum of their points, and the breakdown shown to the user. Scores are reals.
 */
module Risk {
  import opened Basics

  datatype Factors = Factors(
    defaultCreds: bool, telnet: bool, adb: bool, modbus: bool, rtsp: bool, mqtt: bool, http: bool, weakTls: bool,
    cves: int, kevs: int,
    outdated: bool, highEntropy: bool,
    daysSinceScan: int)

  /** The keys of the breakdown. */
  datatype Key =
    | DefaultCredentials | TelnetExposed | AdbExposed | ModbusDetected | UnauthRtsp | PlaintextMqtt | HttpManagement
    | WeakTls | KnownCves | KevMatches | FirmwareOutdated | HighEntropyFirmware | ScanAge

  const KEYS: nat := 13

  /** The keys in the order in which score and breakdown take them. */
  function KeyAt(n: nat): Key
    requires n < KEYS
  {
    match n
    case 0 => DefaultCredentials
    case 1 => TelnetExposed
    case 2 => AdbExposed
    case 3 => ModbusDetected
    case 4 => UnauthRtsp
    case 5 => PlaintextMqtt
    case 6 => HttpManagement
    case 7 => WeakTls
    case 8 => KnownCves
    case 9 => KevMatches
    case 10 => FirmwareOutdated
    case 11 => HighEntropyFirmware
    case _ => ScanAge
  }

  function PlaceOf(k: Key): nat {
    match k
    case DefaultCredentials => 0
    case TelnetExposed => 1
    case AdbExposed => 2
    case ModbusDetected => 3
    case UnauthRtsp => 4
    case PlaintextMqtt => 5
    case HttpManagement => 6
    case WeakTls => 7
    case KnownCves => 8
    case KevMatches => 9
    case FirmwareOutdated => 10
    case HighEntropyFirmware => 11
    case ScanAge => 12
  }

  lemma KeysHaveOnePlace(k: Key, n: nat)
    requires n < KEYS
    ensures PlaceOf(k) < KEYS && (KeyAt(n) == k <==> PlaceOf(k) == n)
  {
  }

  function Min(x: real, y: real): real {
    if x < y then x else y
  }

  function Weight(on: bool, points: real): real {
    if on then points else 0.0
  }

  /** The points a factor is worth, negative if a count is. */
  function Points(f: Factors, k: Key): real {
    match k
    case DefaultCredentials => Weight(f.defaultCreds, 4.0)
    case TelnetExposed => Weight(f.telnet, 3.0)
    case AdbExposed => Weight(f.adb, 3.5)
    case ModbusDetected => Weight(f.modbus, 2.5)
    case UnauthRtsp => Weight(f.rtsp, 2.0)
    case PlaintextMqtt => Weight(f.mqtt, 1.5)
    case HttpManagement => Weight(f.http, 1.0)
    case WeakTls => Weight(f.weakTls, 1.5)
    case KnownCves => Min(f.cves as real * 0.5, 3.0)
    case KevMatches => Min(f.kevs as real * 2.0, 4.0)
    case FirmwareOutdated => Weight(f.outdated, 1.0)
    case HighEntropyFirmware => Weight(f.highEntropy, 2.0)
    case ScanAge => Min(f.daysSinceScan as real / 30.0 * 0.1, 1.0)
  }

  /** The points of the first `n` keys. */
  function Total(f: Factors, n: nat): real
    requires n <= KEYS
  {
    if n == 0 then 0.0 else Total(f, n - 1) + Points(f, KeyAt(n - 1))
  }

  /** The points of what the device exposes: the first eight keys. */
  function Exposure(f: Factors): real {
    Points(f, DefaultCredentials) + Points(f, TelnetExposed) + Points(f, AdbExposed) + Points(f, ModbusDetected)
    + Points(f, UnauthRtsp) + Points(f, PlaintextMqtt) + Points(f, HttpManagement) + Points(f, WeakTls)
  }

  /** The points of what is known about it: the other five. */
  function Findings(f: Factors): real {
    Points(f, KnownCves) + Points(f, KevMatches) + Points(f, FirmwareOutdated) + Points(f, HighEntropyFirmware)
    + Points(f, ScanAge)
  }

  lemma TotalInTwoParts(f: Factors)
    ensures Total(f, KEYS) == Exposure(f) + Findings(f)
  {
    TotalOfExposure(f);
    TotalOfFindings(f);
  }

  lemma TotalOfExposure(f: Factors)
    ensures Total(f, 8) == Exposure(f)
  {
    assert Total(f, 1) == Points(f, DefaultCredentials);
    assert Total(f, 2) == Total(f, 1) + Points(f, TelnetExposed);
    assert Total(f, 4) == Total(f, 2) + Points(f, AdbExposed) + Points(f, ModbusDetected);
    assert Total(f, 6) == Total(f, 4) + Points(f, UnauthRtsp) + Points(f, PlaintextMqtt);
  }

  lemma TotalOfFindings(f: Factors)
    ensures Total(f, KEYS) == Total(f, 8) + Findings(f)
  {
    assert Total(f, 10) == Total(f, 8) + Points(f, KnownCves) + Points(f, KevMatches);
    assert Total(f, 12) == Total(f, 10) + Points(f, FirmwareOutdated) + Points(f, HighEntropyFirmware);
  }

  function Score(f: Factors): real {
    Min(Total(f, KEYS), 10.0)
  }

  method CalculateRiskScore(f: Factors) returns (score: real)
    ensures score == Score(f)
  {
    score := 0.0;
    score := AddExposure(score, f);
    score := AddFindings(score, f);
    TotalInTwoParts(f);
    score := Min(score, 10.0);
  }

  method AddExposure(start: real, f: Factors) returns (score: real)
    ensures score == start + Exposure(f)
  {
    score := AddIf(start, f.defaultCreds, 4.0);
    score := AddIf(score, f.telnet, 3.0);
    score := AddIf(score, f.adb, 3.5);
    score := AddIf(score, f.modbus, 2.5);
    score := AddIf(score, f.rtsp, 2.0);
    score := AddIf(score, f.mqtt, 1.5);
    score := AddIf(score, f.http, 1.0);
    score := AddIf(score, f.weakTls, 1.5);
  }

  method AddFindings(start: real, f: Factors) returns (score: real)
    ensures score == start + Findings(f)
  {
    score := start + Min(f.cves as real * 0.5, 3.0);
    score := score + Min(f.kevs as real * 2.0, 4.0);
    score := AddIf(score, f.outdated, 1.0);
    score := AddIf(score, f.highEntropy, 2.0);
    score := score + Min(f.daysSinceScan as real / 30.0 * 0.1, 1.0);
  }

  /** One of the score's conditional additions. */
  method AddIf(score: real, on: bool, points: real) returns (more: real)
    ensures more == score + Weight(on, points)
  {
    more := if on then score + points else score;
  }

  // ---------------------------------------------------------------- the breakdown

  /** Of the first `n` keys, the map holds exactly the contributions above zero. */
  ghost predicate ShowsFirst(f: Factors, m: map<Key, real>, n: nat) {
    && (forall k :: k in m <==> PlaceOf(k) < n && Points(f, k) > 0.0)
    && (forall k :: k in m ==> m[k] == Points(f, k))
  }

  method ScoreBreakdown(f: Factors) returns (m: map<Key, real>)
    ensures forall k :: k in m <==> Points(f, k) > 0.0
    ensures forall k :: k in m ==> m[k] == Points(f, k)
  {
    m := EnterExposure(f);
    m := EnterFindings(m, f);
  }

  method EnterExposure(f: Factors) returns (m: map<Key, real>)
    ensures ShowsFirst(f, m, 8)
  {
    m := map[];
    m := Enter(f, 0, m, DefaultCredentials, f.defaultCreds, 4.0);
    m := Enter(f, 1, m, TelnetExposed, f.telnet, 3.0);
    m := Enter(f, 2, m, AdbExposed, f.adb, 3.5);
    m := Enter(f, 3, m, ModbusDetected, f.modbus, 2.5);
    m := Enter(f, 4, m, UnauthRtsp, f.rtsp, 2.0);
    m := Enter(f, 5, m, PlaintextMqtt, f.mqtt, 1.5);
    m := Enter(f, 6, m, HttpManagement, f.http, 1.0);
    m := Enter(f, 7, m, WeakTls, f.weakTls, 1.5);
  }

  method EnterFindings(exposure: map<Key, real>, f: Factors) returns (m: map<Key, real>)
    requires ShowsFirst(f, exposure, 8)
    ensures ShowsFirst(f, m, KEYS)
  {
    var cveScore := Min(f.cves as real * 0.5, 3.0);
    m := Enter(f, 8, exposure, KnownCves, cveScore > 0.0, cveScore);
    var kevScore := Min(f.kevs as real * 2.0, 4.0);
    m := Enter(f, 9, m, KevMatches, kevScore > 0.0, kevScore);
    m := Enter(f, 10, m, FirmwareOutdated, f.outdated, 1.0);
    m := Enter(f, 11, m, HighEntropyFirmware, f.highEntropy, 2.0);
    var dayScore := Min(f.daysSinceScan as real / 30.0 * 0.1, 1.0);
    m := Enter(f, 12, m, ScanAge, dayScore > 0.0, dayScore);
  }

  /** One of the breakdown's conditional entries. */
  method Enter(ghost f: Factors, ghost n: nat, m: map<Key, real>, k: Key, on: bool, points: real)
    returns (r: map<Key, real>)
    requires ShowsFirst(f, m, n) && PlaceOf(k) == n
    requires (on <==> Points(f, k) > 0.0) && (on ==> points == Points(f, k))
    ensures ShowsFirst(f, r, n + 1)
  {
    r := if on then m[k := points] else m;
  }

  ghost function AnyKey(m: map<Key, real>): Key
    requires m != map[]
    ensures AnyKey(m) in m
  {
    var k :| k in m;
    k
  }

  /** The sum of a map's values. */
  ghost function SumOf(m: map<Key, real>): real
    decreases |m|
  {
    if m == map[] then 0.0 else SumOf(m - {AnyKey(m)}) + m[AnyKey(m)]
  }

  /** In whatever order the keys are taken. */
  lemma {:induction false} SumTakesAny(m: map<Key, real>, k: Key)
    requires k in m
    ensures SumOf(m) == SumOf(m - {k}) + m[k]
    decreases |m|
  {
    var j := AnyKey(m);
    if j != k {
      SumTakesAny(m - {j}, k);
      SumTakesAny(m - {k}, j);
      assert m - {j} - {k} == m - {k} - {j};
    }
  }

  /** What the score counts but the breakdown does not show. */
  function Hidden(f: Factors, n: nat): real
    requires n <= KEYS
  {
    if n == 0 then 0.0 else Hidden(f, n - 1) + Min(Points(f, KeyAt(n - 1)), 0.0)
  }

  lemma {:induction false} ShownSum(f: Factors, m: map<Key, real>, n: nat)
    requires n <= KEYS && ShowsFirst(f, m, n)
    ensures SumOf(m) + Hidden(f, n) == Total(f, n)
  {
    if n == 0 {
      assert m == map[];
    } else {
      var k := KeyAt(n - 1);
      forall j ensures PlaceOf(j) < n - 1 <==> PlaceOf(j) < n && j != k {
        KeysHaveOnePlace(j, n - 1);
      }
      if Points(f, k) > 0.0 {
        KeysHaveOnePlace(k, n - 1);
        SumTakesAny(m, k);
        ShownSum(f, m - {k}, n - 1);
      } else {
        ShownSum(f, m, n - 1);
      }
    }
  }

  lemma {:induction false} HiddenSign(f: Factors, n: nat)
    requires n <= KEYS
    ensures Hidden(f, n) <= 0.0
    ensures Hidden(f, n) == 0.0 <==> forall k :: 0 <= k < n ==> Points(f, KeyAt(k)) >= 0.0
  {
    if n > 0 {
      HiddenSign(f, n - 1);
    }
  }

  /** The counts are what SQL counts and elapsed days can be. */
  predicate CountsOk(f: Factors) {
    f.cves >= 0 && f.kevs >= 0 && f.daysSinceScan >= 0
  }

  lemma PointsAreNonNegativeIff(f: Factors)
    ensures CountsOk(f) <==> forall k :: 0 <= k < KEYS ==> Points(f, KeyAt(k)) >= 0.0
  {
    assert KeyAt(8) == KnownCves && KeyAt(9) == KevMatches && KeyAt(12) == ScanAge;
  }

  /**
   What ScoreBreakdown shows adds up to the uncapped score exactly when no count is
   negative; then the score is the smaller of 10 and that sum.
   */
  lemma ScoreIsCappedBreakdown(f: Factors, m: map<Key, real>)
    requires forall k :: k in m <==> Points(f, k) > 0.0
    requires forall k :: k in m ==> m[k] == Points(f, k)
    ensures SumOf(m) == Total(f, KEYS) <==> CountsOk(f)
    ensures CountsOk(f) ==> Score(f) == Min(SumOf(m), 10.0)
  {
    forall k ensures PlaceOf(k) < KEYS {
      KeysHaveOnePlace(k, 0);
    }
    ShownSum(f, m, KEYS);
    HiddenSign(f, KEYS);
    PointsAreNonNegativeIff(f);
  }

  // ---------------------------------------------------------------- severity

  datatype Severity = Low | Medium | High | Critical

  function SeverityFromScore(score: real): Severity {
    if score >= 8.0 then Critical else if score >= 6.0 then High else if score >= 3.0 then Medium else Low
  }

  function Rank(s: Severity): nat {
    match s
    case Low => 0
    case Medium => 1
    case High => 2
    case Critical => 3
  }

  /** The documented table of points, in its own order; it does not mention the age of the last scan. */
  function Documented(f: Factors): real {
    Weight(f.defaultCreds, 4.0) + Weight(f.adb, 3.5) + Weight(f.telnet, 3.0) + Weight(f.modbus, 2.5)
    + Weight(f.highEntropy, 2.0) + Min(2.0 * f.kevs as real, 4.0) + Weight(f.rtsp, 2.0) + Weight(f.weakTls, 1.5)
    + Weight(f.mqtt, 1.5) + Weight(f.http, 1.0) + Weight(f.outdated, 1.0) + Min(0.5 * f.cves as real, 3.0)
  }

  /** A tenth of a point for every thirty days since the last scan, at most one. */
  function AgePoints(days: int): real {
    Min(days as real / 300.0, 1.0)
  }

  /**
   The score is the documented sum and the points for the age of the last scan, capped at
   10, and its severity that of the documented ranges. It is the documented score alone
   exactly if the last scan is not a day old or the cap hides its age.
   */
  lemma ScoreIsDocumented(f: Factors)
    ensures var sum := Documented(f) + AgePoints(f.daysSinceScan);
            && Score(f) == Min(sum, 10.0)
            && (SeverityFromScore(Score(f)) == Low <==> sum < 3.0)
            && (SeverityFromScore(Score(f)) == Medium <==> 3.0 <= sum < 6.0)
            && (SeverityFromScore(Score(f)) == High <==> 6.0 <= sum < 8.0)
            && (SeverityFromScore(Score(f)) == Critical <==> 8.0 <= sum)
    ensures f.daysSinceScan >= 0 ==>
              (Score(f) == Min(Documented(f), 10.0) <==> f.daysSinceScan == 0 || Documented(f) >= 10.0)
  {
    TotalInTwoParts(f);
    assert f.daysSinceScan as real / 30.0 * 0.1 == f.daysSinceScan as real / 300.0;
  }

  // ---------------------------------------------------------------- factors from rows

  /** A row of vulnerabilities; `title` is `None` if it cannot be read. */
  datatype Vulnerability = Vulnerability(title: Option<string>, hasCve: bool, isKev: bool, resolved: bool)

  predicate Contains(s: string, part: string) {
    part <= s || (s != "" && Contains(s[1..], part))
  }

  predicate OccursAt(s: string, part: string, i: int) {
    0 <= i && i + |part| <= |s| && s[i..i + |part|] == part
  }

  lemma {:induction false} ContainedOccurs(s: string, part: string) returns (i: int)
    requires Contains(s, part)
    ensures OccursAt(s, part, i)
  {
    if part <= s {
      i := 0;
    } else {
      i := ContainedOccurs(s[1..], part);
      assert s[1..][i..i + |part|] == s[i + 1..i + 1 + |part|];
      i := i + 1;
    }
  }

  lemma {:induction false} OccurringIsContained(s: string, part: string, i: int)
    requires OccursAt(s, part, i)
    ensures Contains(s, part)
  {
    if i > 0 {
      assert s[1..][i - 1..i - 1 + |part|] == s[i..i + |part|];
      OccurringIsContained(s[1..], part, i - 1);
    }
  }

  lemma ContainsIff(s: string, part: string)
    ensures Contains(s, part) <==> exists i :: OccursAt(s, part, i)
  {
    if Contains(s, part) {
      var i := ContainedOccurs(s, part);
    }
    if i :| OccursAt(s, part, i) {
      OccurringIsContained(s, part, i);
    }
  }

  /** What the titles are searched for. */
  datatype Keyword = Telnet | Adb | AndroidDebug | Modbus | Rtsp | Mqtt | Http | DefaultCreds | Tls

  function Text(w: Keyword): string {
    match w
    case Telnet => "telnet"
    case Adb => "adb"
    case AndroidDebug => "android debug"
    case Modbus => "modbus"
    case Rtsp => "rtsp"
    case Mqtt => "mqtt"
    case Http => "http"
    case DefaultCreds => "default credentials"
    case Tls => "tls"
  }

  predicate Says(title: string, w: Keyword) {
    Contains(title, Text(w))
  }

  /** The row's title, in lower case, contains the keyword. */
  predicate Mentions(v: Vulnerability, lower: string -> string, w: Keyword) {
    v.title.Some? && Says(lower(v.title.value), w)
  }

  predicate SomeMention(rows: seq<Vulnerability>, lower: string -> string, w: Keyword) {
    exists k :: 0 <= k < |rows| && Mentions(rows[k], lower, w)
  }

  /** The rows the queries select. */
  function Open(rows: seq<Vulnerability>): seq<Vulnerability> {
    if rows == [] then []
    else
      var last := rows[|rows| - 1];
      if last.resolved then Open(rows[..|rows| - 1]) else Open(rows[..|rows| - 1]) + [last]
  }

  function CountIf(rows: seq<Vulnerability>, p: Vulnerability -> bool): nat {
    if rows == [] then 0 else CountIf(rows[..|rows| - 1], p) + if p(rows[|rows| - 1]) then 1 else 0
  }

  function HasCve(): Vulnerability -> bool { (v: Vulnerability) => v.hasCve }
  function IsKev(): Vulnerability -> bool { (v: Vulnerability) => v.isKev }

  /** The flags of a device whose open rows are `open`. */
  function Flags(open: seq<Vulnerability>, lower: string -> string, highEntropy: bool, days: int): Factors {
    Factors(
      SomeMention(open, lower, DefaultCreds),
      SomeMention(open, lower, Telnet),
      SomeMention(open, lower, Adb) || SomeMention(open, lower, AndroidDebug),
      SomeMention(open, lower, Modbus),
      SomeMention(open, lower, Rtsp),
      SomeMention(open, lower, Mqtt),
      SomeMention(open, lower, Http),
      SomeMention(open, lower, Tls),
      0, 0, false, highEntropy, days)
  }

  /** The factors of a device whose open rows are `open`. */
  function FactorsOf(open: seq<Vulnerability>, lower: string -> string, highEntropy: bool, days: int): Factors {
    Flags(open, lower, highEntropy, days).(cves := CountIf(open, HasCve()), kevs := CountIf(open, IsKev()))
  }

  /** The loop over the titles of the open rows, and the two counts. */
  method BuildRiskFactors(open: seq<Vulnerability>, lower: string -> string, highEntropy: bool, days: int)
    returns (f: Factors)
    ensures f == FactorsOf(open, lower, highEntropy, days)
  {
    f := Factors(false, false, false, false, false, false, false, false, 0, 0, false, highEntropy, days);
    for i := 0 to |open|
      invariant f == Flags(open[..i], lower, highEntropy, days)
    {
      NextTitle(open, i, lower, highEntropy, days);
      if open[i].title.Some? {
        f := Raise(f, lower(open[i].title.value));
      }
    }
    assert open[..|open|] == open;
    assert f == Flags(open, lower, highEntropy, days);
    f := f.(cves := CountIf(open, HasCve()), kevs := CountIf(open, IsKev()));
  }

  /** Sets the flags that a title asks for. */
  function Raise(f: Factors, title: string): Factors {
    f.(telnet := f.telnet || Says(title, Telnet),
       adb := f.adb || Says(title, Adb) || Says(title, AndroidDebug),
       modbus := f.modbus || Says(title, Modbus),
       rtsp := f.rtsp || Says(title, Rtsp),
       mqtt := f.mqtt || Says(title, Mqtt),
       http := f.http || Says(title, Http),
       defaultCreds := f.defaultCreds || Says(title, DefaultCreds),
       weakTls := f.weakTls || Says(title, Tls))
  }

  /** Some row has a title in which the text occurs, once in lower case. */
  ghost predicate SomeTitleHas(rows: seq<Vulnerability>, lower: string -> string, text: string) {
    exists k, i :: 0 <= k < |rows| && rows[k].title.Some? && OccursAt(lower(rows[k].title.value), text, i)
  }

  lemma MentionIff(rows: seq<Vulnerability>, lower: string -> string, w: Keyword, text: string)
    requires text == Text(w)
    ensures SomeMention(rows, lower, w) <==> SomeTitleHas(rows, lower, text)
  {
    if k :| 0 <= k < |rows| && Mentions(rows[k], lower, w) {
      ContainsIff(lower(rows[k].title.value), text);
    }
    if k, i :| 0 <= k < |rows| && rows[k].title.Some? && OccursAt(lower(rows[k].title.value), text, i) {
      ContainsIff(lower(rows[k].title.value), text);
      assert Mentions(rows[k], lower, w);
    }
  }

  /** Each flag of the factors is set exactly by the titles in which its text occurs. */
  lemma FlagsFollowTitles(open: seq<Vulnerability>, lower: string -> string, highEntropy: bool, days: int)
    ensures var f := FactorsOf(open, lower, highEntropy, days);
            && (f.telnet <==> SomeTitleHas(open, lower, "telnet"))
            && (f.adb <==> SomeTitleHas(open, lower, "adb") || SomeTitleHas(open, lower, "android debug"))
            && (f.modbus <==> SomeTitleHas(open, lower, "modbus"))
            && (f.rtsp <==> SomeTitleHas(open, lower, "rtsp"))
            && (f.mqtt <==> SomeTitleHas(open, lower, "mqtt"))
            && (f.http <==> SomeTitleHas(open, lower, "http"))
            && (f.defaultCreds <==> SomeTitleHas(open, lower, "default credentials"))
            && (f.weakTls <==> SomeTitleHas(open, lower, "tls"))
            && !f.outdated && f.highEntropy == highEntropy && f.daysSinceScan == days
  {
    MentionIff(open, lower, Telnet, "telnet");
    MentionIff(open, lower, Adb, "adb");
    MentionIff(open, lower, AndroidDebug, "android debug");
    MentionIff(open, lower, Modbus, "modbus");
    MentionIff(open, lower, Rtsp, "rtsp");
    MentionIff(open, lower, Mqtt, "mqtt");
    MentionIff(open, lower, Http, "http");
    MentionIff(open, lower, DefaultCreds, "default credentials");
    MentionIff(open, lower, Tls, "tls");
  }

  lemma {:induction false} CountIfIsSize(rows: seq<Vulnerability>, p: Vulnerability -> bool)
    ensures CountIf(rows, p) == |set i | 0 <= i < |rows| && p(rows[i])|
  {
    if rows != [] {
      var n := |rows| - 1;
      CountIfIsSize(rows[..n], p);
      var before := set i | 0 <= i < |rows[..n]| && p(rows[..n][i]);
      var all := set i | 0 <= i < |rows| && p(rows[i]);
      assert all == if p(rows[n]) then before + {n} else before;
    }
  }

  /** The two counts are the numbers of open rows with a CVE and with a KEV match. */
  lemma CountsFollowRows(open: seq<Vulnerability>, lower: string -> string, highEntropy: bool, days: int)
    ensures var f := FactorsOf(open, lower, highEntropy, days);
            && f.cves == |set i | 0 <= i < |open| && open[i].hasCve|
            && f.kevs == |set i | 0 <= i < |open| && open[i].isKev|
  {
    CountIfIsSize(open, HasCve());
    CountIfIsSize(open, IsKev());
    assert (set i | 0 <= i < |open| && open[i].hasCve) == set i | 0 <= i < |open| && HasCve()(open[i]);
    assert (set i | 0 <= i < |open| && open[i].isKev) == set i | 0 <= i < |open| && IsKev()(open[i]);
  }

  lemma MentionNext(rows: seq<Vulnerability>, i: nat, lower: string -> string, w: Keyword)
    requires i < |rows|
    ensures SomeMention(rows[..i + 1], lower, w) <==> SomeMention(rows[..i], lower, w) || Mentions(rows[i], lower, w)
  {
    var more, seen := rows[..i + 1], rows[..i];
    if SomeMention(seen, lower, w) {
      var k :| 0 <= k < |seen| && Mentions(seen[k], lower, w);
      assert Mentions(more[k], lower, w);
    }
    if Mentions(rows[i], lower, w) {
      assert Mentions(more[i], lower, w);
    }
    if SomeMention(more, lower, w) && !Mentions(rows[i], lower, w) {
      var k :| 0 <= k < |more| && Mentions(more[k], lower, w);
      assert Mentions(seen[k], lower, w);
    }
  }

  lemma NextTitle(rows: seq<Vulnerability>, i: nat, lower: string -> string, highEntropy: bool, days: int)
    requires i < |rows|
    ensures Flags(rows[..i + 1], lower, highEntropy, days) ==
            var f := Flags(rows[..i], lower, highEntropy, days);
            if rows[i].title.Some? then Raise(f, lower(rows[i].title.value)) else f
  {
    forall w
      ensures SomeMention(rows[..i + 1], lower, w) <==> SomeMention(rows[..i], lower, w) || Mentions(rows[i], lower, w)
    {
      MentionNext(rows, i, lower, w);
    }
  }

  // ---------------------------------------------------------------- more open rows, higher score

  lemma {:induction false} CountIfSplit(a: seq<Vulnerability>, b: seq<Vulnerability>, p: Vulnerability -> bool)
    ensures CountIf(a + b, p) == CountIf(a, p) + CountIf(b, p)
  {
    if b == [] {
      assert a + b == a;
    } else {
      assert (a + b)[..|a + b| - 1] == a + b[..|b| - 1];
      CountIfSplit(a, b[..|b| - 1], p);
    }
  }

  lemma LessOne(a: multiset<Vulnerability>, b: multiset<Vulnerability>, x: Vulnerability)
    requires a + multiset{x} <= b + multiset{x}
    ensures a <= b
  {
    forall y ensures a[y] <= b[y] {
      assert (a + multiset{x})[y] <= (b + multiset{x})[y];
    }
  }

  /** Takes one occurrence of the last row of `a` out of `b`. */
  lemma TakeOut(a: seq<Vulnerability>, b: seq<Vulnerability>)
    returns (left: seq<Vulnerability>, right: seq<Vulnerability>)
    requires a != [] && multiset(a) <= multiset(b)
    ensures b == left + [a[|a| - 1]] + right
    ensures multiset(a[..|a| - 1]) <= multiset(left + right)
  {
    var init, x := a[..|a| - 1], a[|a| - 1];
    assert a == init + [x];
    assert x in multiset(b);
    var j :| 0 <= j < |b| && b[j] == x;
    left, right := b[..j], b[j + 1..];
    assert b == left + [x] + right;
    LessOne(multiset(init), multiset(left + right), x);
  }

  /** A count only depends on, and grows with, the rows as a multiset. */
  lemma {:induction false} CountIfMonotone(a: seq<Vulnerability>, b: seq<Vulnerability>, p: Vulnerability -> bool)
    requires multiset(a) <= multiset(b)
    ensures CountIf(a, p) <= CountIf(b, p)
    decreases |a|
  {
    if a != [] {
      var left, right := TakeOut(a, b);
      CountIfMonotone(a[..|a| - 1], left + right, p);
      CountIfSplit(left, right, p);
      CountIfSplit(left + [a[|a| - 1]], right, p);
      CountIfSplit(left, [a[|a| - 1]], p);
    }
  }

  lemma MentionMonotone(a: seq<Vulnerability>, b: seq<Vulnerability>, lower: string -> string, w: Keyword)
    requires multiset(a) <= multiset(b)
    ensures SomeMention(a, lower, w) ==> SomeMention(b, lower, w)
  {
    if k :| 0 <= k < |a| && Mentions(a[k], lower, w) {
      assert a[k] in multiset(b);
      var j :| 0 <= j < |b| && b[j] == a[k];
    }
  }

  /** Every factor of `f` is also in `g`. */
  predicate AtMost(f: Factors, g: Factors) {
    && (f.defaultCreds ==> g.defaultCreds) && (f.telnet ==> g.telnet) && (f.adb ==> g.adb) && (f.modbus ==> g.modbus)
    && (f.rtsp ==> g.rtsp) && (f.mqtt ==> g.mqtt) && (f.http ==> g.http) && (f.weakTls ==> g.weakTls)
    && f.cves <= g.cves && f.kevs <= g.kevs
    && (f.outdated ==> g.outdated) && (f.highEntropy ==> g.highEntropy) && f.daysSinceScan <= g.daysSinceScan
  }

  lemma FactorsMonotone(a: seq<Vulnerability>, b: seq<Vulnerability>, lower: string -> string, highEntropy: bool,
                        days: int)
    requires multiset(a) <= multiset(b)
    ensures AtMost(FactorsOf(a, lower, highEntropy, days), FactorsOf(b, lower, highEntropy, days))
  {
    forall w ensures SomeMention(a, lower, w) ==> SomeMention(b, lower, w) {
      MentionMonotone(a, b, lower, w);
    }
    CountIfMonotone(a, b, HasCve());
    CountIfMonotone(a, b, IsKev());
  }

  lemma {:induction false} TotalMonotone(f: Factors, g: Factors, n: nat)
    requires n <= KEYS && AtMost(f, g)
    ensures Total(f, n) <= Total(g, n)
  {
    if n > 0 {
      TotalMonotone(f, g, n - 1);
      PointsMonotone(f, g, KeyAt(n - 1));
    }
  }

  lemma ScoreMonotone(f: Factors, g: Factors)
    requires AtMost(f, g)
    ensures Score(f) <= Score(g)
    ensures Rank(SeverityFromScore(Score(f))) <= Rank(SeverityFromScore(Score(g)))
  {
    TotalMonotone(f, g, KEYS);
  }

  lemma PointsMonotone(f: Factors, g: Factors, k: Key)
    requires AtMost(f, g)
    ensures Points(f, k) <= Points(g, k)
  {
  }

  /**
   A device with at least the open rows of another, in any order, scores at least
   as high and is at least as severe.
   */
  lemma {:induction false} MoreOpenRowsScoreHigher(a: seq<Vulnerability>, b: seq<Vulnerability>,
                                                   lower: string -> string, highEntropy: bool, days: int)
    requires multiset(Open(a)) <= multiset(Open(b))
    ensures var f, g := FactorsOf(Open(a), lower, highEntropy, days), FactorsOf(Open(b), lower, highEntropy, days);
            && Score(f) <= Score(g)
            && Rank(SeverityFromScore(Score(f))) <= Rank(SeverityFromScore(Score(g)))
  {
    FactorsMonotone(Open(a), Open(b), lower, highEntropy, days);
    ScoreMonotone(FactorsOf(Open(a), lower, highEntropy, days), FactorsOf(Open(b), lower, highEntropy, days));
  }

  /** The open rows are the unresolved ones, each as often as it occurs. */
  lemma {:induction false} OpenCounts(rows: seq<Vulnerability>, v: Vulnerability)
    ensures multiset(Open(rows))[v] == if v.resolved then 0 else multiset(rows)[v]
  {
    if rows != [] {
      OpenCounts(rows[..|rows| - 1], v);
      assert rows == rows[..|rows| - 1] + [rows[|rows| - 1]];
    }
  }

  lemma {:induction false} OpenSplit(a: seq<Vulnerability>, b: seq<Vulnerability>)
    ensures Open(a + b) == Open(a) + Open(b)
  {
    if b == [] {
      assert a + b == a;
    } else {
      assert (a + b)[..|a + b| - 1] == a + b[..|b| - 1];
      OpenSplit(a, b[..|b| - 1]);
    }
  }

  /** Adding an unresolved vulnerability, anywhere, never lowers the score; resolving one never raises it. */
  lemma AddingAndResolving(before: seq<Vulnerability>, v: Vulnerability, after: seq<Vulnerability>,
                           lower: string -> string, highEntropy: bool, days: int)
    ensures var without := Score(FactorsOf(Open(before + after), lower, highEntropy, days));
            var with := Score(FactorsOf(Open(before + [v] + after), lower, highEntropy, days));
            var resolved := Score(FactorsOf(Open(before + [v.(resolved := true)] + after), lower, highEntropy, days));
            without <= with && resolved <= with && resolved == without
  {
    var done := v.(resolved := true);
    OpenSplit(before, after);
    OpenSplit(before + [v], after);
    OpenSplit(before, [v]);
    OpenSplit(before + [done], after);
    OpenSplit(before, [done]);
    assert Open([done]) == [];
    assert Open(before) + [] == Open(before);
    MoreOpenRowsScoreHigher(before + after, before + [v] + after, lower, highEntropy, days);
  }

  /** The order of the rows is irrelevant. */
  lemma {:induction false} RowOrderIsIrrelevant(a: seq<Vulnerability>, b: seq<Vulnerability>, lower: string -> string,
                                                highEntropy: bool, days: int)
    requires multiset(Open(a)) == multiset(Open(b))
    ensures FactorsOf(Open(a), lower, highEntropy, days) == FactorsOf(Open(b), lower, highEntropy, days)
  {
    FactorsMonotone(Open(a), Open(b), lower, highEntropy, days);
    FactorsMonotone(Open(b), Open(a), lower, highEntropy, days);
  }
}
