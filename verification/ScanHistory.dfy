/** What a list of scan results holds after any series of reports from the radio. */
module ScanHistory {
  import opened Options
  import opened Folds

  type Address = bytes: seq<bv8> | |bytes| == 6 witness [0, 0, 0, 0, 0, 0]

  datatype Uuid = Uuid(len: nat, value: nat)

  /** The library's number for a kind of input device. */
  type Usage = nat

  /** What is kept per transport: classic Bluetooth, or low energy. */
  datatype Detail = Bt(cod: nat, uuid: Uuid) | Ble(appearance: nat, addressType: nat)

  /** One device of a list. */
  datatype Entry = Entry(bda: Address, usage: Usage, name: Option<string>, rssi: int, detail: Detail)

  /** What the radio tells about a device, with the usage the library derives from it; an empty name is none. */
  datatype Discovery = Discovery(bda: Address, usage: Usage, name: string, rssi: int, detail: Detail)

  /** A discovery, and whether memory for an entry and for a name could be had when it came. */
  datatype Report = Report(found: Discovery, memory: bool, nameMemory: bool)

  function Given(name: string): Option<string> {
    if name == "" then None else Some(name)
  }

  function Fresh(d: Discovery): Entry {
    Entry(d.bda, d.usage, Given(d.name), d.rssi, d.detail)
  }

  /** Position of an address, or the length of the list. */
  function Find(es: seq<Entry>, bda: Address): (i: nat)
    ensures i <= |es| && (i < |es| ==> es[i].bda == bda)
    ensures forall k :: 0 <= k < i ==> es[k].bda != bda
  {
    if es == [] || es[0].bda == bda then 0 else 1 + Find(es[1..], bda)
  }

  /** A device seen again: classic Bluetooth fills what was missing and renews the signal strength. */
  function Merge(e: Entry, d: Discovery): Entry {
    if e.detail.Ble? || d.detail.Ble? then e
    else e.(name := if e.name.None? then Given(d.name) else e.name,
            detail := if e.detail.uuid.len == 0
              && d.detail.uuid.len != 0 then e.detail.(uuid := d.detail.uuid) else e.detail,
            rssi := if d.rssi != 0 then d.rssi else e.rssi)
  }

  function Add(es: seq<Entry>, d: Discovery): seq<Entry> {
    var i := Find(es, d.bda);
    if i < |es| then es[i := Merge(es[i], d)] else [Fresh(d)] + es
  }

  /** An allocation that this report needs fails. */
  predicate Fails(es: seq<Entry>, r: Report) {
    var i := Find(es, r.found.bda);
    if i < |es| then es[i].detail.Bt? && es[i].name.None? && r.found.name != "" && !r.nameMemory
    else !r.memory || (r.found.name != "" && !r.nameMemory)
  }

  function Take(es: seq<Entry>, r: Report): seq<Entry> {
    if Fails(es, r) then es else Add(es, r.found)
  }

  function Taker(): (seq<Entry>, Report) -> seq<Entry> {
    (es: seq<Entry>, r: Report) => Take(es, r)
  }

  /** The list after a series of reports. */
  function Gathered(reports: seq<Report>): seq<Entry> {
    Fold(Taker(), [], reports)
  }

  /** The discoveries that were not lost to want of memory. */
  function Kept(reports: seq<Report>): (ds: seq<Discovery>) {
    if reports == [] then []
    else
      var before := reports[..|reports| - 1];
      if Fails(Gathered(before), Last(reports)) then Kept(before) else Kept(before) + [Last(reports).found]
  }

  // ----- An account of the list that does not follow its changes -----

  /** The addresses discovered, the one first seen last in front. */
  function Seen(ds: seq<Discovery>): seq<Address> {
    if ds == [] then []
    else
      var before := Seen(ds[..|ds| - 1]);
      if Last(ds).bda in before then before else [Last(ds).bda] + before
  }

  /** What was told about one address, in order. */
  function About(bda: Address, ds: seq<Discovery>): seq<Discovery> {
    if ds == [] then []
    else About(bda, ds[..|ds| - 1]) + if Last(ds).bda == bda then [Last(ds)] else []
  }

  /** The first name given. */
  function FirstName(ds: seq<Discovery>): Option<string> {
    if ds == [] then None
    else if ds[0].name != "" then Some(ds[0].name)
    else FirstName(ds[1..])
  }

  /** The last signal strength that is not zero. */
  function LastRssi(ds: seq<Discovery>): int {
    if ds == [] then 0
    else if Last(ds).rssi != 0 then Last(ds).rssi
    else LastRssi(ds[..|ds| - 1])
  }

  /** The first identifier with a length, or else what came first. */
  function FirstUuid(ds: seq<Discovery>): Uuid
    requires ds != [] && AllBt(ds)
  {
    if ds[0].detail.uuid.len != 0 || |ds| == 1 then ds[0].detail.uuid
    else
      var later := FirstUuid(ds[1..]);
      if later.len != 0 then later else ds[0].detail.uuid
  }

  predicate AllBt(ds: seq<Discovery>) {
    forall d | d in ds :: d.detail.Bt?
  }

  predicate AllBle(ds: seq<Discovery>) {
    forall d | d in ds :: d.detail.Ble?
  }

  /** The entry that a device's discoveries amount to. */
  function Summary(ds: seq<Discovery>): Entry
    requires ds != [] && (AllBt(ds) || AllBle(ds))
  {
    if AllBle(ds) then
      Entry(ds[0].bda, ds[0].usage, if ds[0].name == "" then None else Some(ds[0].name), ds[0].rssi, ds[0].detail)
    else Entry(ds[0].bda, ds[0].usage, FirstName(ds), LastRssi(ds), ds[0].detail.(uuid := FirstUuid(ds)))
  }

  /** An entry says what its device's discoveries amount to. */
  predicate Sums(e: Entry, ds: seq<Discovery>) {
    var told := About(e.bda, ds);
    told != [] && OneRadio(told) && e == Summary(told)
  }

  /** The entries are exactly the devices seen, each with the sum of what was told about it. */
  ghost predicate Accounts(es: seq<Entry>, ds: seq<Discovery>) {
    && |es| == |Seen(ds)|
    && forall i :: 0 <= i < |es| ==> es[i].bda == Seen(ds)[i] && Sums(es[i], ds)
  }

  predicate OneRadio(ds: seq<Discovery>) {
    AllBt(ds) || AllBle(ds)
  }

  lemma {:induction false} AboutKind(bda: Address, ds: seq<Discovery>)
    ensures forall d | d in About(bda, ds) :: d in ds && d.bda == bda
  {
    if ds != [] { AboutKind(bda, ds[..|ds| - 1]); }
  }

  lemma {:induction false} SeenAbout(bda: Address, ds: seq<Discovery>)
    ensures bda in Seen(ds) <==> About(bda, ds) != []
  {
    if ds != [] { SeenAbout(bda, ds[..|ds| - 1]); }
  }

  lemma {:induction false} SeenDistinct(ds: seq<Discovery>)
    ensures forall i, j :: 0 <= i < j < |Seen(ds)| ==> Seen(ds)[i] != Seen(ds)[j]
  {
    if ds != [] { SeenDistinct(ds[..|ds| - 1]); }
  }

  lemma {:induction false} FirstNameSnoc(ds: seq<Discovery>, d: Discovery)
    ensures FirstName(ds + [d]) == if FirstName(ds).Some? then FirstName(ds) else Given(d.name)
  {
    if ds != [] {
      assert (ds + [d])[1..] == ds[1..] + [d];
      FirstNameSnoc(ds[1..], d);
    } else {
      assert (ds + [d])[1..] == [];
    }
  }

  lemma {:induction false} FirstUuidSnoc(ds: seq<Discovery>, d: Discovery)
    requires ds != [] && AllBt(ds) && d.detail.Bt?
    ensures AllBt(ds + [d])
    ensures FirstUuid(ds + [d]) ==
      if FirstUuid(ds).len == 0 && d.detail.uuid.len != 0 then d.detail.uuid else FirstUuid(ds)
  {
    assert (ds + [d])[1..] == ds[1..] + [d];
    if |ds| == 1 {
      assert (ds + [d])[1..] == [d];
    } else {
      FirstUuidSnoc(ds[1..], d);
    }
  }

  // One more discovery of a device.
  lemma SummarySnoc(ds: seq<Discovery>, d: Discovery)
    requires ds != [] && OneRadio(ds + [d])
    ensures OneRadio(ds) && Summary(ds + [d]) == Merge(Summary(ds), d)
  {
    assert forall x | x in ds :: x in ds + [d];
    assert d in ds + [d] && ds[0] in ds;
    assert (ds + [d])[..|ds|] == ds;
    if AllBt(ds + [d]) {
      FirstNameSnoc(ds, d);
      FirstUuidSnoc(ds, d);
    }
  }

  lemma SummaryOne(d: Discovery)
    ensures OneRadio([d]) && Summary([d]) == Fresh(d)
  {
    assert [d][1..] == [] && [d][..|[d]| - 1] == [];
    assert [d][0] in [d];
    if d.detail.Bt? {
      assert FirstName([d]) == Given(d.name) && LastRssi([d]) == d.rssi;
      assert d.detail.(uuid := FirstUuid([d])) == d.detail;
    }
  }

  lemma AboutSnoc(bda: Address, ds: seq<Discovery>, d: Discovery)
    ensures About(bda, ds + [d]) == About(bda, ds) + if d.bda == bda then [d] else []
  {
    assert (ds + [d])[..|ds|] == ds;
  }

  // An entry that stays, one that is merged into, and a new one.
  lemma SumsAfter(e: Entry, ds: seq<Discovery>, d: Discovery)
    requires Sums(e, ds) && OneRadio(ds + [d])
    ensures Sums(if e.bda == d.bda then Merge(e, d) else e, ds + [d])
  {
    AboutSnoc(e.bda, ds, d);
    AboutKind(e.bda, ds + [d]);
    var told, now := About(e.bda, ds), About(e.bda, ds + [d]);
    assert OneRadio(now);
    if e.bda == d.bda {
      assert now == told + [d];
      SummarySnoc(told, d);
      assert Merge(e, d).bda == e.bda;
    } else {
      assert now == told;
    }
  }

  lemma SumsFresh(ds: seq<Discovery>, d: Discovery)
    requires About(d.bda, ds) == []
    ensures Sums(Fresh(d), ds + [d])
  {
    AboutSnoc(d.bda, ds, d);
    assert [] + [d] == [d];
    SummaryOne(d);
  }

  lemma SeenSnoc(ds: seq<Discovery>, d: Discovery)
    ensures Seen(ds + [d]) == if d.bda in Seen(ds) then Seen(ds) else [d.bda] + Seen(ds)
  {
    assert (ds + [d])[..|ds|] == ds;
  }

  lemma AccountsMerge(es: seq<Entry>, ds: seq<Discovery>, d: Discovery)
    requires OneRadio(ds + [d]) && Accounts(es, ds) && Find(es, d.bda) < |es|
    ensures Accounts(Add(es, d), ds + [d])
  {
    var fs, i := Add(es, d), Find(es, d.bda);
    SeenSnoc(ds, d);
    SeenDistinct(ds);
    assert Seen(ds)[i] == d.bda;
    forall k | 0 <= k < |es| ensures fs[k].bda == Seen(ds)[k] && Sums(fs[k], ds + [d]) {
      SumsAfter(es[k], ds, d);
      if k != i { assert Seen(ds)[k] != Seen(ds)[i]; }
    }
  }

  lemma NewAddress(es: seq<Entry>, ds: seq<Discovery>, bda: Address)
    requires Accounts(es, ds) && Find(es, bda) == |es|
    ensures bda !in Seen(ds) && About(bda, ds) == []
  {
    forall k | 0 <= k < |Seen(ds)| ensures Seen(ds)[k] != bda { assert es[k].bda == Seen(ds)[k]; }
    SeenAbout(bda, ds);
  }

  lemma AccountsNew(es: seq<Entry>, ds: seq<Discovery>, d: Discovery)
    requires OneRadio(ds + [d]) && Accounts(es, ds) && Find(es, d.bda) == |es|
    ensures Accounts([Fresh(d)] + es, ds + [d])
  {
    var fs, all := [Fresh(d)] + es, ds + [d];
    NewAddress(es, ds, d.bda);
    SeenSnoc(ds, d);
    SumsFresh(ds, d);
    forall k | 0 <= k < |fs| ensures fs[k].bda == Seen(all)[k] && Sums(fs[k], all) {
      if k > 0 {
        assert fs[k] == es[k - 1];
        SumsAfter(es[k - 1], ds, d);
      }
    }
  }

  lemma {:induction false} KeptKind(reports: seq<Report>)
    ensures forall d | d in Kept(reports) :: exists r :: r in reports && r.found == d
  {
    if reports != [] {
      KeptKind(reports[..|reports| - 1]);
      assert Last(reports) in reports;
    }
  }

  predicate OneKind(reports: seq<Report>) {
    (forall r | r in reports :: r.found.detail.Bt?) || (forall r | r in reports :: r.found.detail.Ble?)
  }

  /** After any series of reports on one radio, with memory failing at will, the list has one entry for each
      address in a report that was not lost, the newest first, with everything those reports told about it. */
  lemma {:induction false} ListAccounts(reports: seq<Report>)
    requires OneKind(reports)
    ensures OneRadio(Kept(reports)) && Accounts(Gathered(reports), Kept(reports))
  {
    KeptKind(reports);
    assert OneRadio(Kept(reports));
    if reports != [] {
      ListAccounts(reports[..|reports| - 1]);
      var es, ds, r := Gathered(reports[..|reports| - 1]), Kept(reports[..|reports| - 1]), Last(reports);
      if !Fails(es, r) {
        if Find(es, r.found.bda) < |es| { AccountsMerge(es, ds, r.found); } else { AccountsNew(es, ds, r.found); }
      }
    }
  }

  /** A report is lost, told from the reports kept before it, if memory is missing for a device not heard of yet or
      for its name, or for the first name of a classic device. */
  lemma LossLaw(reports: seq<Report>, r: Report)
    requires OneKind(reports)
    ensures var told := About(r.found.bda, Kept(reports));
      Fails(Gathered(reports), r) <==>
        if told == [] then !r.memory || (r.found.name != "" && !r.nameMemory)
        else AllBt(told) && FirstName(told) == None && r.found.name != "" && !r.nameMemory
  {
    var es, ds := Gathered(reports), Kept(reports);
    ListAccounts(reports);
    var i, told := Find(es, r.found.bda), About(r.found.bda, ds);
    if i == |es| {
      NewAddress(es, ds, r.found.bda);
    } else {
      assert Sums(es[i], ds) && es[i] == Summary(told);
      assert told[0] in told;
    }
  }

  /** The list of one radio: no device is named twice, and none is the other radio's. */
  predicate Listed(es: seq<Entry>, classic: bool) {
    && (forall i, j :: 0 <= i < j < |es| ==> es[i].bda != es[j].bda)
    && forall i :: 0 <= i < |es| ==> es[i].detail.Bt? == classic
  }

  lemma TakeListed(es: seq<Entry>, r: Report, classic: bool)
    requires Listed(es, classic) && r.found.detail.Bt? == classic
    ensures Listed(Take(es, r), classic)
  {
  }

  function OfRadio(reports: seq<Report>, classic: bool): seq<Report> {
    if reports == [] then []
    else
      var before := OfRadio(reports[..|reports| - 1], classic);
      if Last(reports).found.detail.Bt? == classic then before + [Last(reports)] else before
  }

  lemma {:induction false} OfRadioConcat(a: seq<Report>, b: seq<Report>, classic: bool)
    ensures OfRadio(a + b, classic) == OfRadio(a, classic) + OfRadio(b, classic)
  {
    if b == [] {
      assert a + b == a;
    } else {
      OfRadioConcat(a, b[..|b| - 1], classic);
      assert (a + b)[..|a + b| - 1] == a + b[..|b| - 1];
    }
  }

  lemma {:induction false} OfRadioKind(reports: seq<Report>, classic: bool)
    ensures forall r | r in OfRadio(reports, classic) :: r.found.detail.Bt? == classic
  {
    if reports != [] { OfRadioKind(reports[..|reports| - 1], classic); }
  }

  /** A list that was es before these reports. */
  function Heard(es: seq<Entry>, reports: seq<Report>, classic: bool): seq<Entry> {
    Fold(Taker(), es, OfRadio(reports, classic))
  }

  lemma HeardNext(es: seq<Entry>, reports: seq<Report>, i: nat, classic: bool)
    requires i < |reports|
    ensures Heard(es, reports[..i + 1], classic) ==
      if reports[i].found.detail.Bt? == classic then Take(Heard(es, reports[..i], classic), reports[i])
      else Heard(es, reports[..i], classic)
  {
    assert reports[..i + 1][..i] == reports[..i] && Last(reports[..i + 1]) == reports[i];
    if reports[i].found.detail.Bt? == classic {
      FoldSnoc(Taker(), es, OfRadio(reports[..i], classic), reports[i]);
    }
  }

  lemma HeardConcat(es: seq<Entry>, a: seq<Report>, b: seq<Report>, classic: bool)
    ensures Heard(Heard(es, a, classic), b, classic) == Heard(es, a + b, classic)
  {
    OfRadioConcat(a, b, classic);
    FoldConcat(Taker(), es, OfRadio(a, classic), OfRadio(b, classic));
  }

  // ----- Scan after scan -----

  datatype Lists = Lists(bt: seq<Entry>, ble: seq<Entry>)

  const NOTHING := Lists([], [])

  /** How a scan goes: whether each radio starts, and what is reported while waiting for it. */
  datatype Course = Course(bleStarts: bool, early: seq<Report>, btStarts: bool, late: seq<Report>)

  function Listen(l: Lists, reports: seq<Report>): Lists {
    Lists(Heard(l.bt, reports, true), Heard(l.ble, reports, false))
  }

  /** What a scan leaves in the lists, and what it hands out if it succeeds. */
  function Scan(l: Lists, how: Course): (Lists, Option<seq<Entry>>) {
    if l != NOTHING || !how.bleStarts then (l, None)
    else
      var early := Listen(l, how.early);
      if !how.btStarts then (early, None)
      else
        var both := Listen(early, how.late);
        (NOTHING, Some(both.bt + both.ble))
  }

  /** A successful scan hands out an account of all it was told, classic devices first, whatever came when. */
  lemma ScanAccounts(how: Course)
    ensures var reports := how.early + how.late;
      var bt, ble := OfRadio(reports, true), OfRadio(reports, false);
      && (Scan(NOTHING, how).1.Some? <==> how.bleStarts && how.btStarts)
      && (Scan(NOTHING, how).1.Some? ==> Scan(NOTHING, how) == (NOTHING, Some(Gathered(bt) + Gathered(ble))))
      && OneRadio(Kept(bt)) && Accounts(Gathered(bt), Kept(bt))
      && OneRadio(Kept(ble)) && Accounts(Gathered(ble), Kept(ble))
  {
    var reports := how.early + how.late;
    HeardConcat([], how.early, how.late, true);
    HeardConcat([], how.early, how.late, false);
    OfRadioKind(reports, true);
    OfRadioKind(reports, false);
    ListAccounts(OfRadio(reports, true));
    ListAccounts(OfRadio(reports, false));
  }

  /** Memory suffices for a new entry. */
  predicate Affordable(r: Report) {
    r.memory && (r.found.name == "" || r.nameMemory)
  }

  lemma TakeFirst(es: seq<Entry>, r: Report)
    ensures Take(es, r) == [] <==> es == [] && !Affordable(r)
  {
  }

  /** Some report of this radio's can be kept. */
  predicate Brings(reports: seq<Report>, classic: bool) {
    exists r :: r in reports && r.found.detail.Bt? == classic && Affordable(r)
  }

  lemma BringsNext(reports: seq<Report>, r: Report, classic: bool)
    ensures Brings(reports + [r], classic) <==>
      Brings(reports, classic) || (r.found.detail.Bt? == classic && Affordable(r))
  {
    assert forall x | x in reports :: x in reports + [r];
    assert r in reports + [r];
  }

  lemma {:induction false} NothingHeard(reports: seq<Report>, classic: bool)
    ensures Heard([], reports, classic) == [] <==> !Brings(reports, classic)
  {
    if reports != [] {
      var n := |reports| - 1;
      NothingHeard(reports[..n], classic);
      HeardNext([], reports, n, classic);
      assert reports[..n + 1] == reports == reports[..n] + [reports[n]];
      BringsNext(reports[..n], reports[n], classic);
      TakeFirst(Heard([], reports[..n], classic), reports[n]);
    }
  }

  function After(l: Lists, scans: seq<Course>): Lists {
    if scans == [] then l else Scan(After(l, scans[..|scans| - 1]), Last(scans)).0
  }

  lemma {:induction false} StaleStays(l: Lists, scans: seq<Course>)
    requires l != NOTHING
    ensures After(l, scans) == l
  {
    if scans != [] { StaleStays(l, scans[..|scans| - 1]); }
  }

  /** Left-over results, which only a successful scan would take away, make every later scan fail. */
  lemma StaleForever(l: Lists, scans: seq<Course>, k: nat)
    requires l != NOTHING && k < |scans|
    ensures Scan(After(l, scans[..k]), scans[k]) == (l, None)
  {
    StaleStays(l, scans[..k]);
  }

  /** A scan spoils all later ones exactly when only the second radio fails to start and the wait for the first
      has already brought in some result. */
  lemma SpoiltLaw(how: Course)
    ensures Scan(NOTHING, how).0 != NOTHING <==>
      how.bleStarts && !how.btStarts && exists r :: r in how.early && Affordable(r)
  {
    NothingHeard(how.early, true);
    NothingHeard(how.early, false);
  }
}
