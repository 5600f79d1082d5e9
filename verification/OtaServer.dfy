/** Server side of the update: the release and report tables, the manifest a device is
    offered, and the closeout of a release. */
module OtaServer {
  import opened Bytes

  // ---------------------------------------------------------------- version numbers

  predicate IsDigit(c: char) {
    '0' <= c <= '9'
  }

  function LeadingDigits(text: string): (n: nat)
    ensures n <= |text|
  {
    if text == "" || !IsDigit(text[0]) then 0 else 1 + LeadingDigits(text[1..])
  }

  function Number(digits: string): nat {
    if digits == "" then 0
    else Number(digits[..|digits| - 1]) * 10 + Digit(digits[|digits| - 1])
  }

  function Digit(c: char): nat {
    if IsDigit(c) then (c as int) - ('0' as int) else 0
  }

  /** The maximal runs of digits in the text, as numbers. */
  function VersionKey(text: string): seq<nat>
    decreases |text|
  {
    if text == "" then []
    else if !IsDigit(text[0]) then VersionKey(text[1..])
    else
      var n := LeadingDigits(text);
      [Number(text[..n])] + VersionKey(text[n..])
  }

  function DigitChar(d: nat): (c: char)
    requires d < 10
    ensures IsDigit(c) && Digit(c) == d
  {
    (d + ('0' as int)) as char
  }

  /** How a number is written. */
  function Decimal(n: nat): (digits: string)
    ensures digits != "" && forall i :: 0 <= i < |digits| ==> IsDigit(digits[i])
  {
    if n < 10 then [DigitChar(n)] else Decimal(n / 10) + [DigitChar(n % 10)]
  }

  lemma {:induction false} NumberOfDecimal(n: nat)
    ensures Number(Decimal(n)) == n
  {
    if n < 10 {
      assert [DigitChar(n)][..0] == "" && Number("") == 0;
    } else {
      NumberOfDecimal(n / 10);
      assert (Decimal(n / 10) + [DigitChar(n % 10)])[..|Decimal(n / 10)|] == Decimal(n / 10);
    }
  }

  /** Numbers written with dots between them. */
  function Dotted(numbers: seq<nat>): string {
    if numbers == [] then ""
    else if |numbers| == 1 then Decimal(numbers[0])
    else Decimal(numbers[0]) + "." + Dotted(numbers[1..])
  }

  lemma {:induction false} LeadingDigitsOf(digits: string, more: string)
    requires forall i :: 0 <= i < |digits| ==> IsDigit(digits[i])
    requires more == "" || !IsDigit(more[0])
    ensures LeadingDigits(digits + more) == |digits|
  {
    if digits == "" {
      assert digits + more == more;
    } else {
      assert (digits + more)[1..] == digits[1..] + more;
      LeadingDigitsOf(digits[1..], more);
    }
  }

  lemma KeyOfFirst(n: nat, more: string)
    requires more == "" || !IsDigit(more[0])
    ensures VersionKey(Decimal(n) + more) == [n] + VersionKey(more)
  {
    var digits := Decimal(n);
    var text := digits + more;
    LeadingDigitsOf(digits, more);
    NumberOfDecimal(n);
    hide LeadingDigits, Number, Decimal, IsDigit;
    assert text[..|digits|] == digits && text[|digits|..] == more;
    assert IsDigit(text[0]);
  }

  lemma KeySkips(text: string)
    requires text != "" && !IsDigit(text[0])
    ensures VersionKey(text) == VersionKey(text[1..])
  {
  }

  /** The key of a dotted version is the list of its numbers. */
  lemma {:induction false} VersionKeyOfDotted(numbers: seq<nat>)
    ensures VersionKey(Dotted(numbers)) == numbers
  {
    hide VersionKey, Decimal;
    if numbers == [] {
      NoKey();
    } else if |numbers| == 1 {
      KeyOfFirst(numbers[0], "");
      NoKey();
      assert Decimal(numbers[0]) + "" == Decimal(numbers[0]);
    } else {
      var more := "." + Dotted(numbers[1..]);
      VersionKeyOfDotted(numbers[1..]);
      KeySkips(more);
      assert more[1..] == Dotted(numbers[1..]);
      assert Decimal(numbers[0]) + "." + Dotted(numbers[1..]) == Decimal(numbers[0]) + more;
      KeyOfFirst(numbers[0], more);
    }
  }

  lemma NoKey()
    ensures VersionKey("") == []
  {
  }

  ghost predicate HasDigit(text: string) {
    exists i :: 0 <= i < |text| && IsDigit(text[i])
  }

  lemma {:induction false} KeyNeedsDigit(text: string)
    ensures VersionKey(text) != [] <==> HasDigit(text)
    decreases |text|
  {
    if text != "" {
      if IsDigit(text[0]) {
        assert HasDigit(text);
      } else {
        KeyNeedsDigit(text[1..]);
        assert HasDigit(text[1..]) ==> HasDigit(text) by {
          if HasDigit(text[1..]) {
            var i :| 0 <= i < |text[1..]| && IsDigit(text[1..][i]);
            assert IsDigit(text[i + 1]);
          }
        }
        assert HasDigit(text) ==> HasDigit(text[1..]) by {
          if HasDigit(text) {
            var i :| 0 <= i < |text| && IsDigit(text[i]);
            assert IsDigit(text[1..][i - 1]);
          }
        }
      }
    }
  }

  function Pad(key: seq<nat>, n: nat): (padded: seq<nat>)
    requires |key| <= n
    ensures |padded| == n
  {
    key + seq(n - |key|, _ => 0)
  }

  /** Tuple comparison `a >= b` for tuples of one length. */
  predicate TupleAtLeast(a: seq<nat>, b: seq<nat>)
    requires |a| == |b|
  {
    a == [] || a[0] > b[0] || (a[0] == b[0] && TupleAtLeast(a[1..], b[1..]))
  }

  function Max(a: nat, b: nat): nat {
    if a < b then b else a
  }

  predicate KeyAtLeast(a: seq<nat>, b: seq<nat>) {
    var n := Max(|a|, |b|);
    TupleAtLeast(Pad(a, n), Pad(b, n))
  }

  /** `_version_at_least`; a missing or empty minimum is always met, and a version without
      digits only meets itself. */
  predicate VersionAtLeast(current: Option<string>, minimum: Option<string>) {
    if minimum.None? || minimum.value == "" then true
    else
      var currentKey := if current.Some? then VersionKey(current.value) else [];
      var minimumKey := VersionKey(minimum.value);
      if currentKey == [] || minimumKey == [] then current == minimum
      else KeyAtLeast(currentKey, minimumKey)
  }

  lemma {:induction false} TupleTotal(a: seq<nat>, b: seq<nat>)
    requires |a| == |b|
    ensures TupleAtLeast(a, b) || TupleAtLeast(b, a)
    ensures a == b ==> TupleAtLeast(a, b)
    ensures TupleAtLeast(a, b) && TupleAtLeast(b, a) ==> a == b
    decreases |a|
  {
    if a != [] {
      TupleTotal(a[1..], b[1..]);
      assert a == [a[0]] + a[1..] && b == [b[0]] + b[1..];
    }
  }

  /** The first number in which they differ decides. */
  lemma {:induction false} FirstDifferenceDecides(a: seq<nat>, b: seq<nat>)
    requires |a| == |b|
    ensures TupleAtLeast(a, b) <==>
            a == b || exists k :: 0 <= k < |a| && a[..k] == b[..k] && a[k] > b[k]
    decreases |a|
  {
    if a != [] {
      FirstDifferenceDecides(a[1..], b[1..]);
      assert a == [a[0]] + a[1..] && b == [b[0]] + b[1..];
      if a[0] > b[0] {
        assert a[..0] == b[..0] && a[0] > b[0];
      } else if a[0] == b[0] {
        if k :| 0 <= k < |a[1..]| && a[1..][..k] == b[1..][..k] && a[1..][k] > b[1..][k] {
          assert a[..k + 1] == [a[0]] + a[1..][..k] && b[..k + 1] == [b[0]] + b[1..][..k];
          assert a[k + 1] > b[k + 1];
        }
      }
      if k :| 0 <= k < |a| && a[..k] == b[..k] && a[k] > b[k] && k > 0 {
        assert a[0] == a[..k][0] && b[0] == b[..k][0];
        assert a[1..][..k - 1] == a[..k][1..] && b[1..][..k - 1] == b[..k][1..];
        assert a[1..][k - 1] > b[1..][k - 1];
      }
    }
  }

  /** Without a minimum every version will do; where one side has no digits only the same text. */
  lemma OtherVersions(current: Option<string>, minimum: string)
    ensures VersionAtLeast(current, None) && VersionAtLeast(current, Some(""))
    ensures minimum != "" && (current.None? || !HasDigit(current.value) || !HasDigit(minimum)) ==>
              (VersionAtLeast(current, Some(minimum)) <==> current == Some(minimum))
  {
    KeyNeedsDigit(minimum);
    if current.Some? { KeyNeedsDigit(current.value); }
    hide VersionKey, HasDigit, KeyAtLeast;
  }

  /** On dotted versions the minimum-version test compares number by number, missing ones
      counting as zero. */
  lemma MinimumVersionMeans(current: seq<nat>, minimum: seq<nat>)
    requires current != [] && minimum != []
    ensures var n := Max(|current|, |minimum|);
            VersionAtLeast(Some(Dotted(current)), Some(Dotted(minimum))) <==>
            || Pad(current, n) == Pad(minimum, n)
            || exists k :: 0 <= k < n && Pad(current, n)[..k] == Pad(minimum, n)[..k]
                           && Pad(current, n)[k] > Pad(minimum, n)[k]
  {
    VersionKeyOfDotted(current);
    VersionKeyOfDotted(minimum);
    NoKey();
    hide VersionKey, Dotted, TupleAtLeast;
    var n := Max(|current|, |minimum|);
    FirstDifferenceDecides(Pad(current, n), Pad(minimum, n));
  }

  lemma {:induction false} TupleTransitive(a: seq<nat>, b: seq<nat>, c: seq<nat>)
    requires |a| == |b| == |c| && TupleAtLeast(a, b) && TupleAtLeast(b, c)
    ensures TupleAtLeast(a, c)
    decreases |a|
  {
    if a != [] && a[0] == b[0] == c[0] {
      TupleTransitive(a[1..], b[1..], c[1..]);
    }
  }

  /** More zeros change nothing. */
  lemma {:induction false} ZerosDoNotMatter(a: seq<nat>, b: seq<nat>)
    requires |a| == |b|
    ensures TupleAtLeast(a + [0], b + [0]) <==> TupleAtLeast(a, b)
    decreases |a|
  {
    if a == [] {
      assert TupleAtLeast((a + [0])[1..], (b + [0])[1..]);
    } else {
      ZerosDoNotMatter(a[1..], b[1..]);
      assert (a + [0])[1..] == a[1..] + [0] && (b + [0])[1..] == b[1..] + [0];
    }
  }

  lemma {:induction false} PadFurther(a: seq<nat>, b: seq<nat>, n: nat)
    requires Max(|a|, |b|) <= n
    ensures KeyAtLeast(a, b) <==> TupleAtLeast(Pad(a, n), Pad(b, n))
    decreases n
  {
    if n > Max(|a|, |b|) {
      PadFurther(a, b, n - 1);
      assert Pad(a, n) == Pad(a, n - 1) + [0] && Pad(b, n) == Pad(b, n - 1) + [0];
      ZerosDoNotMatter(Pad(a, n - 1), Pad(b, n - 1));
    }
  }

  /** On versions that contain digits the minimum-version test is a total preorder. */
  lemma VersionsArePreordered(a: string, b: string, c: string)
    requires HasDigit(a) && HasDigit(b) && HasDigit(c)
    ensures VersionAtLeast(Some(a), Some(a))
    ensures VersionAtLeast(Some(a), Some(b)) || VersionAtLeast(Some(b), Some(a))
    ensures VersionAtLeast(Some(a), Some(b)) && VersionAtLeast(Some(b), Some(c)) ==> VersionAtLeast(Some(a), Some(c))
  {
    KeyNeedsDigit(a);
    KeyNeedsDigit(b);
    KeyNeedsDigit(c);
    hide VersionKey, TupleAtLeast, Pad;
    var ka, kb, kc := VersionKey(a), VersionKey(b), VersionKey(c);
    var n := Max(|ka|, Max(|kb|, |kc|));
    PadFurther(ka, ka, n);
    PadFurther(ka, kb, n);
    PadFurther(kb, ka, n);
    PadFurther(kb, kc, n);
    PadFurther(ka, kc, n);
    TupleTotal(Pad(ka, n), Pad(ka, n));
    TupleTotal(Pad(ka, n), Pad(kb, n));
    if TupleAtLeast(Pad(ka, n), Pad(kb, n)) && TupleAtLeast(Pad(kb, n), Pad(kc, n)) {
      TupleTransitive(Pad(ka, n), Pad(kb, n), Pad(kc, n));
    }
  }

  // ---------------------------------------------------------------- tables

  datatype Release = Release(
    id: string, target: string, version: string, artifact: string, sha256: string, size: int,
    enabled: bool, force: bool, minVersion: Option<string>, board: Option<string>, hwRev: Option<string>,
    priority: int, createdAt: string, devices: seq<string>)

  datatype Report = Report(device: string, release: Option<string>, stage: string, ok: bool)

  datatype Db = Db(releases: seq<Release>, reports: seq<Report>)

  datatype Query = Query(device: string, board: Option<string>, hwRev: Option<string>, appVersion: Option<string>)

  const TARGET := "esp32s3"
  const SUPPRESS_STAGES: seq<string> := ["boot_switch_scheduled", "post_reboot_confirm"]
  const P3C_STAGES: seq<string> := ["partition_write", "boot_switch_scheduled", "post_reboot_confirm"]
  const P3D_STAGES: seq<string> := P3C_STAGES + ["app_validated"]

  predicate HasOkReport(db: Db, device: string, release: string, stage: string) {
    exists i :: 0 <= i < |db.reports| && db.reports[i] == Report(device, Some(release), stage, true)
  }

  predicate Suppressed(db: Db, device: string, release: string) {
    exists k :: 0 <= k < |SUPPRESS_STAGES| && HasOkReport(db, device, release, SUPPRESS_STAGES[k])
  }

  /** A column that restricts the release to one value, when it is set at all. */
  predicate Restricts(column: Option<string>, actual: Option<string>) {
    column.Some? && column.value != "" && column != actual
  }

  /** `_release_matches`. */
  predicate ReleaseMatches(db: Db, q: Query, r: Release) {
    && r.target == TARGET && r.enabled && q.device in r.devices
    && !Restricts(r.board, q.board) && !Restricts(r.hwRev, q.hwRev)
    && (r.force || VersionAtLeast(q.appVersion, r.minVersion))
    && !Suppressed(db, q.device, r.id)
    && r.artifact != "" && r.sha256 != "" && r.size != 0
  }

  /** A report of either of the two stages suppresses the release for the device. */
  lemma SuppressedExactlyWhen(db: Db, device: string, release: string)
    ensures Suppressed(db, device, release) <==>
            || HasOkReport(db, device, release, "boot_switch_scheduled")
            || HasOkReport(db, device, release, "post_reboot_confirm")
  {
    hide HasOkReport;
    assert SUPPRESS_STAGES[0] == "boot_switch_scheduled" && SUPPRESS_STAGES[1] == "post_reboot_confirm";
  }

  /** What an offer has to meet, point by point. */
  ghost predicate Meets(db: Db, q: Query, r: Release) {
    && r.target == "esp32s3" && r.enabled
    && (exists i :: 0 <= i < |r.devices| && r.devices[i] == q.device)
    && (r.board.None? || r.board == Some("") || r.board == q.board)
    && (r.hwRev.None? || r.hwRev == Some("") || r.hwRev == q.hwRev)
    && (r.force || VersionAtLeast(q.appVersion, r.minVersion))
    && !HasOkReport(db, q.device, r.id, "boot_switch_scheduled")
    && !HasOkReport(db, q.device, r.id, "post_reboot_confirm")
    && r.artifact != "" && r.sha256 != "" && r.size != 0
  }

  lemma MatchingMeans(db: Db, q: Query, r: Release)
    ensures ReleaseMatches(db, q, r) <==> Meets(db, q, r)
  {
    hide HasOkReport, VersionAtLeast, Suppressed;
    SuppressedExactlyWhen(db, q.device, r.id);
  }

  predicate TextLe(a: string, b: string) {
    a == "" || (b != "" && (a[0] < b[0] || (a[0] == b[0] && TextLe(a[1..], b[1..]))))
  }

  /** `ORDER BY priority, created_at, release_id`. */
  predicate KeyLe(a: Release, b: Release) {
    || a.priority < b.priority
    || (a.priority == b.priority
        && (if a.createdAt != b.createdAt then TextLe(a.createdAt, b.createdAt) else TextLe(a.id, b.id)))
  }

  lemma {:induction false} TextOrder(a: string, b: string)
    ensures TextLe(a, b) || TextLe(b, a)
    ensures TextLe(a, b) && TextLe(b, a) ==> a == b
    ensures TextLe(a, a)
    decreases |a|
  {
    if a != "" {
      TextOrder(a[1..], a[1..]);
    }
    if a != "" && b != "" {
      TextOrder(a[1..], b[1..]);
      assert a == [a[0]] + a[1..] && b == [b[0]] + b[1..];
    }
  }

  /** The two texts first differ at `k`, and there the first has the smaller character. */
  predicate SmallerAt(a: string, b: string, k: int) {
    0 <= k < |a| && k < |b| && a[..k] == b[..k] && a[k] < b[k]
  }

  lemma SmallerAtFirst(a: string, b: string)
    requires a != "" && b != ""
    ensures SmallerAt(a, b, 0) <==> a[0] < b[0]
  {
    assert a[..0] == b[..0];
  }

  lemma SmallerLater(a: string, b: string, k: nat)
    requires a != "" && b != ""
    ensures SmallerAt(a, b, k + 1) <==> a[0] == b[0] && SmallerAt(a[1..], b[1..], k)
  {
    if k + 1 < |a| && k + 1 < |b| {
      assert a[..k + 1] == [a[0]] + a[1..][..k] && b[..k + 1] == [b[0]] + b[1..][..k];
    }
  }

  /** A text comes before its extensions, and else the first different character decides. */
  lemma {:induction false} TextOrderMeans(a: string, b: string)
    ensures TextLe(a, b) <==> a <= b || exists k :: SmallerAt(a, b, k)
    decreases |a|
  {
    if a == "" || b == "" {
      assert forall k :: !SmallerAt(a, b, k);
    } else {
      hide SmallerAt;
      TextOrderMeans(a[1..], b[1..]);
      SmallerAtFirst(a, b);
      NotBefore(a, b);
      assert a == [a[0]] + a[1..] && b == [b[0]] + b[1..];
      if k :| SmallerAt(a[1..], b[1..], k) {
        NotBefore(a[1..], b[1..]);
        SmallerLater(a, b, k);
      }
      if k :| SmallerAt(a, b, k) && k != 0 {
        SmallerLater(a, b, k - 1);
      }
    }
  }

  lemma NotBefore(a: string, b: string)
    ensures forall k :: SmallerAt(a, b, k) ==> k >= 0
  {
  }

  lemma {:induction false} TextTransitive(a: string, b: string, c: string)
    requires TextLe(a, b) && TextLe(b, c)
    ensures TextLe(a, c)
    decreases |a|
  {
    if a != "" && a[0] == b[0] == c[0] {
      TextTransitive(a[1..], b[1..], c[1..]);
    }
  }

  lemma KeyTransitive(a: Release, b: Release, c: Release)
    requires KeyLe(a, b) && KeyLe(b, c)
    ensures KeyLe(a, c)
  {
    hide TextLe;
    TextOrder(a.createdAt, b.createdAt);
    TextOrder(b.createdAt, c.createdAt);
    TextOrder(a.createdAt, c.createdAt);
    if a.priority == c.priority {
      if TextLe(a.createdAt, b.createdAt) && TextLe(b.createdAt, c.createdAt) {
        TextTransitive(a.createdAt, b.createdAt, c.createdAt);
      }
      if TextLe(a.id, b.id) && TextLe(b.id, c.id) {
        TextTransitive(a.id, b.id, c.id);
      }
    }
  }

  lemma KeyTotal(a: Release, b: Release)
    ensures KeyLe(a, b) || KeyLe(b, a)
  {
    hide TextLe;
    TextOrder(a.createdAt, b.createdAt);
    TextOrder(a.id, b.id);
  }

  ghost predicate Sorted(rs: seq<Release>) {
    forall i, j :: 0 <= i <= j < |rs| ==> KeyLe(rs[i], rs[j])
  }

  /** What the manifest should offer: the least of the releases that match. */
  ghost predicate IsOffer(db: Db, q: Query, r: Release) {
    && r in db.releases && ReleaseMatches(db, q, r)
    && forall i :: 0 <= i < |db.releases| && ReleaseMatches(db, q, db.releases[i]) ==> KeyLe(r, db.releases[i])
  }

  /** No release that meets the query has a smaller priority, or the same and was created
      before, or at the same time and has an id that comes before. */
  ghost predicate IsFirst(db: Db, q: Query, r: Release) {
    forall i :: 0 <= i < |db.releases| && Meets(db, q, db.releases[i]) ==>
      var o := db.releases[i];
      && r.priority <= o.priority
      && (r.priority == o.priority ==> TextLe(r.createdAt, o.createdAt))
      && (r.priority == o.priority && r.createdAt == o.createdAt ==> TextLe(r.id, o.id))
  }

  lemma OfferIsFirst(db: Db, q: Query, r: Release)
    requires IsOffer(db, q, r)
    ensures IsFirst(db, q, r)
  {
    hide ReleaseMatches, Meets, TextLe;
    forall i | 0 <= i < |db.releases| && Meets(db, q, db.releases[i]) ensures KeyLe(r, db.releases[i]) {
      MatchingMeans(db, q, db.releases[i]);
    }
    TextOrder(r.createdAt, r.createdAt);
  }

  ghost predicate UniqueIds(rs: seq<Release>) {
    forall i, j :: 0 <= i < j < |rs| ==> rs[i].id != rs[j].id
  }

  /** At most one release is offered. */
  lemma OfferIsUnique(db: Db, q: Query, r1: Release, r2: Release)
    requires UniqueIds(db.releases) && IsOffer(db, q, r1) && IsOffer(db, q, r2)
    ensures r1 == r2
  {
    hide ReleaseMatches, TextLe;
    var i :| 0 <= i < |db.releases| && db.releases[i] == r1;
    var j :| 0 <= j < |db.releases| && db.releases[j] == r2;
    assert KeyLe(r1, db.releases[j]) && KeyLe(r2, db.releases[i]);
    TextOrder(r1.createdAt, r2.createdAt);
    TextOrder(r1.id, r2.id);
  }

  // ---------------------------------------------------------------- sorted listing

  function Insert(r: Release, rs: seq<Release>): seq<Release> {
    if rs == [] || KeyLe(r, rs[0]) then [r] + rs else [rs[0]] + Insert(r, rs[1..])
  }

  /** The rows in the order of the query. */
  function Listed(rs: seq<Release>): seq<Release> {
    if rs == [] then [] else Insert(rs[0], Listed(rs[1..]))
  }

  lemma {:induction false} InsertSorts(r: Release, rs: seq<Release>)
    requires Sorted(rs)
    ensures Sorted(Insert(r, rs)) && multiset(Insert(r, rs)) == multiset(rs) + multiset{r}
    decreases |rs|
  {
    hide KeyLe;
    if rs == [] {
      KeyTotal(r, r);
    } else {
      assert rs == [rs[0]] + rs[1..];
      KeyTotal(r, rs[0]);
      KeyTotal(r, r);
      if KeyLe(r, rs[0]) {
        forall j | 0 <= j < |rs| ensures KeyLe(r, rs[j]) {
          KeyTransitive(r, rs[0], rs[j]);
        }
      } else {
        InsertSorts(r, rs[1..]);
        var t := Insert(r, rs[1..]);
        forall j | 0 <= j < |t| ensures KeyLe(rs[0], t[j]) {
          assert t[j] in multiset(t);
          assert t[j] == r || t[j] in rs[1..];
        }
      }
    }
  }

  lemma {:induction false} ListedSorts(rs: seq<Release>)
    ensures Sorted(Listed(rs)) && multiset(Listed(rs)) == multiset(rs)
    decreases |rs|
  {
    if rs != [] {
      ListedSorts(rs[1..]);
      InsertSorts(rs[0], Listed(rs[1..]));
      assert rs == [rs[0]] + rs[1..];
    }
  }

  lemma SameRows(rs: seq<Release>, r: Release)
    ensures r in Listed(rs) <==> r in rs
  {
    ListedSorts(rs);
    assert r in multiset(rs) <==> r in multiset(Listed(rs));
  }

  // ---------------------------------------------------------------- operations

  predicate Distinct(devices: seq<string>) {
    forall i, j :: 0 <= i < j < |devices| ==> devices[i] != devices[j]
  }

  predicate KnownId(db: Db, id: string) {
    exists i :: 0 <= i < |db.releases| && db.releases[i].id == id
  }

  predicate AllReported(db: Db, id: string, device: string, stages: seq<string>) {
    forall k :: 0 <= k < |stages| ==> HasOkReport(db, device, id, stages[k])
  }

  function Disable(rs: seq<Release>, id: string): (out: seq<Release>)
    ensures |out| == |rs|
    ensures forall i :: 0 <= i < |rs| ==> out[i] == if rs[i].id == id then rs[i].(enabled := false) else rs[i]
  {
    seq(|rs|, i requires 0 <= i < |rs| => if rs[i].id == id then rs[i].(enabled := false) else rs[i])
  }

  datatype Op = Create(r: Release) | Submit(report: Report) | CloseOut(id: string, device: string, p3d: bool)

  predicate Accepts(db: Db, op: Op) {
    match op
    case Create(r) => !KnownId(db, r.id) && Distinct(r.devices)
    case Submit(_) => true
    case CloseOut(id, device, p3d) =>
      KnownId(db, id) && AllReported(db, id, device, if p3d then P3D_STAGES else P3C_STAGES)
  }

  function Apply(db: Db, op: Op): Db {
    if !Accepts(db, op) then db
    else
      match op
      case Create(r) => db.(releases := db.releases + [r])
      case Submit(report) => db.(reports := db.reports + [report])
      case CloseOut(id, _, _) => db.(releases := Disable(db.releases, id))
  }

  function ApplyAll(db: Db, ops: seq<Op>): Db
    decreases |ops|
  {
    if ops == [] then db else ApplyAll(Apply(db, ops[0]), ops[1..])
  }

  class Database {
    var releases: seq<Release>
    var reports: seq<Report>

    constructor ()
      ensures Rows() == Db([], [])
    {
      releases, reports := [], [];
    }

    function Rows(): Db
      reads this
    {
      Db(releases, reports)
    }

    /** `create_ota_release`: one transaction, refused on a duplicate key. */
    method CreateRelease(r: Release) returns (ok: bool)
      modifies this
      ensures ok == Accepts(old(Rows()), Create(r)) && Rows() == Apply(old(Rows()), Create(r))
      ensures ok <==> && (forall i :: 0 <= i < |old(releases)| ==> old(releases)[i].id != r.id)
                      && (forall i, j :: 0 <= i < j < |r.devices| ==> r.devices[i] != r.devices[j])
      ensures releases == (if ok then old(releases) + [r] else old(releases)) && reports == old(reports)
    {
      ok := !KnownId(Rows(), r.id) && Distinct(r.devices);
      if ok {
        releases := releases + [r];
      }
    }

    /** `record_ota_report`. */
    method RecordReport(report: Report)
      modifies this
      ensures Rows() == Apply(old(Rows()), Submit(report))
      ensures reports == old(reports) + [report] && releases == old(releases)
    {
      reports := reports + [report];
    }

    /** `get_ota_manifest`: the first listed release that matches. */
    method GetManifest(q: Query) returns (updates: seq<Release>)
      ensures |updates| <= 1
      ensures updates != [] ==> IsOffer(Rows(), q, updates[0])
      ensures updates != [] ==> Meets(Rows(), q, updates[0]) && IsFirst(Rows(), q, updates[0])
      ensures updates == [] <==> forall i :: 0 <= i < |releases| ==> !Meets(Rows(), q, releases[i])
    {
      hide ReleaseMatches, Meets, KeyLe, IsFirst;
      forall r ensures ReleaseMatches(Rows(), q, r) <==> Meets(Rows(), q, r) {
        MatchingMeans(Rows(), q, r);
      }
      updates := [];
      var candidates := Listed(releases);
      ListedSorts(releases);
      for i := 0 to |candidates|
        invariant updates == [] && forall k :: 0 <= k < i ==> !ReleaseMatches(Rows(), q, candidates[k])
      {
        if ReleaseMatches(Rows(), q, candidates[i]) {
          SameRows(releases, candidates[i]);
          forall k | 0 <= k < |releases| && ReleaseMatches(Rows(), q, releases[k])
            ensures KeyLe(candidates[i], releases[k])
          {
            SameRows(releases, releases[k]);
            var j :| 0 <= j < |candidates| && candidates[j] == releases[k];
          }
          OfferIsFirst(Rows(), q, candidates[i]);
          return [candidates[i]];
        }
      }
      forall k | 0 <= k < |releases| ensures !ReleaseMatches(Rows(), q, releases[k]) {
        SameRows(releases, releases[k]);
      }
    }

    /** The closeout script: 0 on success, 2 when the release or a report is missing. */
    method CloseRelease(id: string, device: string, p3d: bool) returns (code: int)
      modifies this
      ensures code == (if Accepts(old(Rows()), CloseOut(id, device, p3d)) then 0 else 2)
      ensures Rows() == Apply(old(Rows()), CloseOut(id, device, p3d))
      ensures |releases| == |old(releases)| && reports == old(reports)
      ensures forall i :: 0 <= i < |releases| ==>
                releases[i] == (if code == 0 && old(releases)[i].id == id then old(releases)[i].(enabled := false)
                                else old(releases)[i])
    {
      if !KnownId(Rows(), id) {
        return 2;
      }
      var required := if p3d then P3D_STAGES else P3C_STAGES;
      var missing := 0;
      for k := 0 to |required|
        invariant missing == 0 <==> forall j :: 0 <= j < k ==> HasOkReport(Rows(), device, id, required[j])
        invariant missing >= 0
      {
        if !HasOkReport(Rows(), device, id, required[k]) {
          missing := missing + 1;
        }
      }
      if missing > 0 {
        return 2;
      }
      releases := Disable(releases, id);
      return 0;
    }
  }

  // ---------------------------------------------------------------- over all histories

  lemma ReportsOnlyGrow(db: Db, op: Op)
    ensures db.reports <= Apply(db, op).reports
  {
  }

  lemma StaysSuppressed(db: Db, op: Op, device: string, release: string)
    requires Suppressed(db, device, release)
    ensures Suppressed(Apply(db, op), device, release)
  {
    hide Accepts;
    var k :| 0 <= k < |SUPPRESS_STAGES| && HasOkReport(db, device, release, SUPPRESS_STAGES[k]);
    var i :| 0 <= i < |db.reports| && db.reports[i] == Report(device, Some(release), SUPPRESS_STAGES[k], true);
    ReportsOnlyGrow(db, op);
    assert Apply(db, op).reports[i] == db.reports[i];
    assert HasOkReport(Apply(db, op), device, release, SUPPRESS_STAGES[k]);
  }

  /** A device that reported a successful boot switch or confirmation for a release is never
      offered that release again, whatever happens later. */
  lemma {:induction false} NeverOfferedAgain(db: Db, ops: seq<Op>, q: Query, r: Release)
    requires Suppressed(db, q.device, r.id)
    ensures !IsOffer(ApplyAll(db, ops), q, r)
    decreases |ops|
  {
    hide Apply, Suppressed, KeyLe;
    if ops != [] {
      StaysSuppressed(db, ops[0], q.device, r.id);
      NeverOfferedAgain(Apply(db, ops[0]), ops[1..], q, r);
    }
  }

  /** A closeout of the release is accepted somewhere in the history. */
  predicate ClosedIn(db: Db, ops: seq<Op>, id: string)
    decreases |ops|
  {
    && ops != []
    && ((ops[0].CloseOut? && ops[0].id == id && Accepts(db, ops[0])) || ClosedIn(Apply(db, ops[0]), ops[1..], id))
  }

  /** In every history a release stays as it was created, and stays on until a closeout of it is
      accepted. */
  lemma {:induction false} StaysUntilClosed(db: Db, ops: seq<Op>, i: nat)
    requires i < |db.releases|
    ensures var u, r := ApplyAll(db, ops), db.releases[i];
            i < |u.releases| && u.releases[i] == r.(enabled := r.enabled && !ClosedIn(db, ops, r.id))
    decreases |ops|
  {
    hide Accepts;
    if ops != [] {
      StaysUntilClosed(Apply(db, ops[0]), ops[1..], i);
    }
  }

  /** Every row with this id is disabled, and there is one. */
  ghost predicate Closed(db: Db, id: string) {
    && KnownId(db, id)
    && forall i :: 0 <= i < |db.releases| && db.releases[i].id == id ==> !db.releases[i].enabled
  }

  lemma StaysClosed(db: Db, op: Op, id: string)
    requires Closed(db, id)
    ensures Closed(Apply(db, op), id)
  {
    var i :| 0 <= i < |db.releases| && db.releases[i].id == id;
    assert Apply(db, op).releases[i].id == id;
  }

  /** After a successful closeout the release is never offered to any device again; the
      closeout succeeds only when every required stage was reported ok. */
  lemma ClosedForGood(db: Db, id: string, device: string, p3d: bool, ops: seq<Op>, q: Query, r: Release)
    requires Accepts(db, CloseOut(id, device, p3d)) && r.id == id
    ensures !IsOffer(ApplyAll(Apply(db, CloseOut(id, device, p3d)), ops), q, r)
    ensures HasOkReport(db, device, id, "partition_write") && HasOkReport(db, device, id, "boot_switch_scheduled")
    ensures HasOkReport(db, device, id, "post_reboot_confirm")
    ensures p3d ==> HasOkReport(db, device, id, "app_validated")
  {
    hide KeyLe, HasOkReport;
    var closed := Apply(db, CloseOut(id, device, p3d));
    var i :| 0 <= i < |db.releases| && db.releases[i].id == id;
    assert closed.releases[i].id == id;
    ClosedIsNotOffered(closed, ops, q, r);
    assert P3C_STAGES[0] == "partition_write" && P3C_STAGES[1] == "boot_switch_scheduled";
    assert P3C_STAGES[2] == "post_reboot_confirm" && P3D_STAGES[3] == "app_validated";
    assert forall k :: 0 <= k < 3 ==> P3D_STAGES[k] == P3C_STAGES[k];
  }

  /** And it succeeds whenever they were. */
  lemma ClosesExactlyWhen(db: Db, id: string, device: string, p3d: bool)
    ensures Accepts(db, CloseOut(id, device, p3d)) <==>
            && (exists i :: 0 <= i < |db.releases| && db.releases[i].id == id)
            && HasOkReport(db, device, id, "partition_write") && HasOkReport(db, device, id, "boot_switch_scheduled")
            && HasOkReport(db, device, id, "post_reboot_confirm")
            && (p3d ==> HasOkReport(db, device, id, "app_validated"))
  {
    hide HasOkReport;
    assert P3C_STAGES[0] == "partition_write" && P3C_STAGES[1] == "boot_switch_scheduled";
    assert P3C_STAGES[2] == "post_reboot_confirm" && P3D_STAGES[3] == "app_validated";
    assert forall k :: 0 <= k < 3 ==> P3D_STAGES[k] == P3C_STAGES[k];
  }

  lemma {:induction false} ClosedIsNotOffered(db: Db, ops: seq<Op>, q: Query, r: Release)
    requires Closed(db, r.id)
    ensures !IsOffer(ApplyAll(db, ops), q, r)
    decreases |ops|
  {
    hide Apply, KeyLe, Suppressed;
    if ops != [] {
      StaysClosed(db, ops[0], r.id);
      ClosedIsNotOffered(Apply(db, ops[0]), ops[1..], q, r);
    }
  }

  /** Ids stay unique, so in every history the manifest's offer is well defined. */
  lemma {:induction false} IdsStayUnique(db: Db, ops: seq<Op>)
    requires UniqueIds(db.releases)
    ensures UniqueIds(ApplyAll(db, ops).releases)
    decreases |ops|
  {
    hide AllReported;
    if ops != [] {
      IdsStayUnique(Apply(db, ops[0]), ops[1..]);
    }
  }

  /** No row and no release still to be created under this id lists the device. */
  ghost predicate NeverListed(db: Db, ops: seq<Op>, id: string, device: string) {
    && (forall i :: 0 <= i < |db.releases| && db.releases[i].id == id ==> device !in db.releases[i].devices)
    && (forall k :: 0 <= k < |ops| && ops[k].Create? && ops[k].r.id == id ==> device !in ops[k].r.devices)
  }

  lemma StaysUnlisted(db: Db, ops: seq<Op>, id: string, device: string)
    requires ops != [] && NeverListed(db, ops, id, device)
    ensures NeverListed(Apply(db, ops[0]), ops[1..], id, device)
  {
    hide Accepts;
  }

  /** A device that no release of an id lists is never offered that id, in any history. */
  lemma {:induction false} OnlyListedDevicesAreOffered(db: Db, ops: seq<Op>, q: Query, r: Release)
    requires NeverListed(db, ops, r.id, q.device)
    ensures !IsOffer(ApplyAll(db, ops), q, r)
    decreases |ops|
  {
    hide Apply, Suppressed, KeyLe, NeverListed;
    if ops == [] {
      UnlistedNow(db, q, r);
    } else {
      StaysUnlisted(db, ops, r.id, q.device);
      OnlyListedDevicesAreOffered(Apply(db, ops[0]), ops[1..], q, r);
    }
  }

  lemma UnlistedNow(db: Db, q: Query, r: Release)
    requires NeverListed(db, [], r.id, q.device)
    ensures !IsOffer(db, q, r)
  {
    hide KeyLe;
    MatchingMeans(db, q, r);
  }
}
