/**
 * The combining engine: within one lastname group it indexes the MySQL
 * users by `firstname::lastname`, probes the index with each Friendly
 * Vendor user, and for each hit assembles a match record, offers it to the
 * metrics collector as a sample, counts it, and hands it to the writer.
 */
module Combining {
  import opened Text
  import opened Wrappers
  import opened Dates
  import opened Records
  import opened Metrics
  import opened MysqlWriting

  // ---------------------------------------------------------------------
  // Keys and comparisons

  /** `_make_match_key`: `"{}::{}".format(first.lower().strip(), last.lower().strip())` */
  function MatchKey(firstname: string, lastname: string): string {
    Key(firstname) + "::" + Key(lastname)
  }

  function UserKey(u: MysqlUser): string {
    MatchKey(u.firstname, u.lastname)
  }

  function FrivenKey(f: FrivenUser): string {
    MatchKey(f.firstname, f.lastname)
  }

  /** The key already ignores case and surrounding whitespace: keying the
      keyed names changes nothing. */
  lemma MatchKeyOfKeys(firstname: string, lastname: string)
    ensures MatchKey(Key(firstname), Key(lastname)) == MatchKey(firstname, lastname)
  {
    KeyIdempotent(firstname);
    KeyIdempotent(lastname);
  }

  /** The key is the two keyed names around `::`. */
  lemma MatchKeyShape(firstname: string, lastname: string)
    ensures var k := MatchKey(firstname, lastname); var n := |Key(firstname)|;
      n + 2 <= |k| && k[..n] == Key(firstname) && k[n..n + 2] == "::" && k[n + 2..] == Key(lastname)
  {
    var k := MatchKey(firstname, lastname);
    var n := |Key(firstname)|;
    assert k == Key(firstname) + ("::" + Key(lastname));
    assert k[n..] == "::" + Key(lastname);
  }

  /** The text `_strings_are_equal` compares: lowered, stripped, and then
      with underscores read as spaces. */
  function Normalise(s: string): string {
    ReplaceChar(Strip(Lower(s)), '_', ' ')
  }

  /** `_strings_are_equal`: 1 when the normalised texts agree, 0 otherwise. */
  function StringsAreEqual(a: string, b: string): int {
    if Normalise(a) == Normalise(b) then 1 else 0
  }

  /** The flag is 0 or 1, and it does not depend on the order of its arguments. */
  lemma StringsAreEqualSymmetric(a: string, b: string)
    ensures StringsAreEqual(a, b) == StringsAreEqual(b, a)
    ensures StringsAreEqual(a, b) == 1 || StringsAreEqual(a, b) == 0
  {
  }

  /** Case never matters: a text and its lowered form compare equal. */
  lemma StringsAreEqualIgnoresCase(a: string)
    ensures StringsAreEqual(Lower(a), a) == 1
  {
    LowerIdempotent(a);
  }

  /** Agreeing normalised texts give 1; differing ones give 0. */
  lemma StringsAreEqualMeaning(a: string, b: string)
    ensures StringsAreEqual(a, b) == 1 <==>
      |Normalise(a)| == |Normalise(b)|
      && forall k :: 0 <= k < |Normalise(a)| ==> Normalise(a)[k] == Normalise(b)[k]
  {
    if |Normalise(a)| == |Normalise(b)|
       && forall k :: 0 <= k < |Normalise(a)| ==> Normalise(a)[k] == Normalise(b)[k] {
      assert Normalise(a) == Normalise(b);
    }
  }

  /** A lowercase text without surrounding whitespace is only rewritten
      for its underscores. */
  lemma NormalisePlain(s: string)
    requires forall k :: 0 <= k < |s| ==> LowerChar(s[k]) == s[k]
    requires s != [] ==> !IsSpace(s[0]) && !IsSpace(s[|s| - 1])
    ensures Normalise(s) == ReplaceChar(s, '_', ' ')
  {
    LowerOfLowerCase(s);
  }

  /** Case and underscores do not matter: `"a_b"` matches `"A b"`. */
  lemma UnderscoreMatchesSpace()
    ensures StringsAreEqual("a_b", "A b") == 1
  {
    assert Lower("A b") == "a b";
    NormalisePlain("a_b");
    NormalisePlain("a b");
    assert ReplaceChar("a_b", '_', ' ') == "a b";
    assert ReplaceChar("a b", '_', ' ') == "a b";
  }

  /** Stripping comes before the underscores become spaces, so a leading
      underscore survives as a leading space: `"_a"` does not match `"a"`,
      although `" a"` does, and normalising twice is not normalising once. */
  lemma LeadingUnderscoreKept()
    ensures Normalise("_a") == " a" && Normalise(" a") == "a"
    ensures StringsAreEqual("_a", "a") == 0 && StringsAreEqual(" a", "a") == 1
    ensures Normalise(Normalise("_a")) != Normalise("_a")
  {
    assert Lower("_a") == "_a";
    assert TrimEnd("_a", IsSpace) == "_a";
    assert TrimStart("_a", IsSpace) == "_a";
    assert ReplaceChar("_a", '_', ' ') == " a";
    assert Lower(" a") == " a";
    assert TrimEnd(" a", IsSpace) == " a";
    assert TrimStart(" a", IsSpace) == "a";
    assert Lower("a") == "a";
    assert TrimEnd("a", IsSpace) == "a";
    assert TrimStart("a", IsSpace) == "a";
    assert ReplaceChar("a", '_', ' ') == "a";
  }

  // ---------------------------------------------------------------------
  // Activity

  /** `_user_is_active`: `(report_date - last_active_date).days <= 30`. */
  predicate UserIsActive(reportDate: CalendarDate, lastActiveDate: CalendarDate) {
    DaysBetween(reportDate, lastActiveDate) <= 30
  }

  /** A user last active `n` days before the report date is active exactly
      when `n` is at most 30. */
  lemma ActiveWithinThirtyDays(lastActiveDate: CalendarDate, n: nat)
    requires lastActiveDate.year + n < 9999
    ensures UserIsActive(AddDays(lastActiveDate, n), lastActiveDate) <==> n <= 30
  {
    AddDaysOrdinal(lastActiveDate, n);
  }

  lemma ThirtyDaysIsActive(lastActiveDate: CalendarDate)
    requires lastActiveDate.year < 9968
    ensures UserIsActive(AddDays(lastActiveDate, 30), lastActiveDate)
    ensures !UserIsActive(AddDays(lastActiveDate, 31), lastActiveDate)
  {
    ActiveWithinThirtyDays(lastActiveDate, 30);
    ActiveWithinThirtyDays(lastActiveDate, 31);
  }

  /** A last-active date on or after the report date counts as active. */
  lemma FutureDateIsActive(reportDate: CalendarDate, n: nat)
    requires reportDate.year + n < 9999
    ensures UserIsActive(reportDate, AddDays(reportDate, n))
  {
    AddDaysOrdinal(reportDate, n);
  }

  // ---------------------------------------------------------------------
  // The match record

  /** The Python exceptions `combine` lets escape: `IndexError` for an empty
      Friendly Vendor list, the duplicate-key `AssertionError`, the
      `ValueError` of `strptime`, and the writer's errors. */
  datatype CombineError =
    | NoFrivenUsers
    | DuplicateKey
    | BadDate(text: string)
    | WriterFault(cause: WriteError)

  /** The columns of a match record before they become a dictionary. */
  datatype MatchRecord = MatchRecord(
    reportDate: CalendarDate,
    doximityUserId: int,
    frivenUserId: int,
    locationMatch: int,
    specialtyMatch: int,
    classificationMatch: int,
    doximityLastActive: CalendarDate,
    frivenLastActive: CalendarDate,
    doximityActive: bool,
    frivenActive: bool,
    frivenPage: int,
    frivenRow: int)

  /** `int(b)` for a boolean. */
  function Flag(b: bool): Value {
    IntValue(if b then 1 else 0)
  }

  /** The dictionary `_create_match_record` returns: dates as `str(date)`,
      the activity flags as `int(...)`. */
  function ToRow(r: MatchRecord): Row {
    map[
      "report_date" := StrValue(Format(r.reportDate)),
      "doximity_user_id" := IntValue(r.doximityUserId),
      "friendly_vendor_user_id" := IntValue(r.frivenUserId),
      "location_match" := IntValue(r.locationMatch),
      "specialty_match" := IntValue(r.specialtyMatch),
      "classification_match" := IntValue(r.classificationMatch),
      "doximity_last_active_date" := StrValue(Format(r.doximityLastActive)),
      "friendly_vendor_last_active_date" := StrValue(Format(r.frivenLastActive)),
      "is_doximity_user_active" := Flag(r.doximityActive),
      "is_friendly_vendor_user_active" := Flag(r.frivenActive),
      "_friendly_vendor_page" := IntValue(r.frivenPage),
      "_friendly_vendor_row" := IntValue(r.frivenRow)]
  }

  /** The columns of the record for `m` and `f`, once `f`'s date is parsed. */
  function Assemble(reportDate: CalendarDate, m: MysqlUser, f: FrivenUser, frivenDate: CalendarDate): MatchRecord {
    MatchRecord(
      reportDate, m.id, f.id,
      StringsAreEqual(m.location, f.practiceLocation),
      StringsAreEqual(m.specialty, f.specialty),
      StringsAreEqual(m.classification, f.userTypeClassification),
      m.lastActiveDate, frivenDate,
      UserIsActive(reportDate, m.lastActiveDate),
      UserIsActive(reportDate, frivenDate),
      f.page, f.row)
  }

  /** `_create_match_record`: fails when the Friendly Vendor date does not
      parse. */
  function CreateMatchRecord(reportDate: CalendarDate, m: MysqlUser, f: FrivenUser): (r: Result<Row, CombineError>)
    ensures r.Failure? <==> Parse(f.lastActiveDate).None?
    ensures r.Failure? ==> r.error == BadDate(f.lastActiveDate)
  {
    match Parse(f.lastActiveDate)
    case None => Failure(BadDate(f.lastActiveDate))
    case Some(frivenDate) => Success(ToRow(Assemble(reportDate, m, f, frivenDate)))
  }

  /** The numeric columns of the dictionary carry their fields. */
  lemma ToRowNumbers(r: MatchRecord)
    ensures var row := ToRow(r);
      row["doximity_user_id"] == IntValue(r.doximityUserId)
      && row["friendly_vendor_user_id"] == IntValue(r.frivenUserId)
      && row["location_match"] == IntValue(r.locationMatch)
      && row["specialty_match"] == IntValue(r.specialtyMatch)
      && row["classification_match"] == IntValue(r.classificationMatch)
      && row["_friendly_vendor_page"] == IntValue(r.frivenPage)
      && row["_friendly_vendor_row"] == IntValue(r.frivenRow)
  {
  }

  /** The date and activity columns carry their fields, and the dictionary
      has no worker id yet. */
  lemma ToRowDates(r: MatchRecord)
    ensures var row := ToRow(r);
      row["report_date"] == StrValue(Format(r.reportDate))
      && row["doximity_last_active_date"] == StrValue(Format(r.doximityLastActive))
      && row["friendly_vendor_last_active_date"] == StrValue(Format(r.frivenLastActive))
      && row["is_doximity_user_active"] == Flag(r.doximityActive)
      && row["is_friendly_vendor_user_active"] == Flag(r.frivenActive)
      && WorkerIdField !in row
  {
  }

  /** What a match record holds: the two ids, the Friendly Vendor page and
      row, the three comparison flags over the paired columns, the activity
      flags, and the dates as text, the Friendly Vendor one exactly as it
      was given. */
  lemma MatchRecordContents(reportDate: CalendarDate, m: MysqlUser, f: FrivenUser)
    requires Parse(f.lastActiveDate).Some?
    ensures var rec := CreateMatchRecord(reportDate, m, f).value;
      var frivenDate := Parse(f.lastActiveDate).value;
      rec["doximity_user_id"] == IntValue(m.id)
      && rec["friendly_vendor_user_id"] == IntValue(f.id)
      && rec["_friendly_vendor_page"] == IntValue(f.page)
      && rec["_friendly_vendor_row"] == IntValue(f.row)
      && rec["location_match"] == IntValue(StringsAreEqual(m.location, f.practiceLocation))
      && rec["specialty_match"] == IntValue(StringsAreEqual(m.specialty, f.specialty))
      && rec["classification_match"] == IntValue(StringsAreEqual(m.classification, f.userTypeClassification))
      && rec["is_doximity_user_active"] == Flag(UserIsActive(reportDate, m.lastActiveDate))
      && rec["is_friendly_vendor_user_active"] == Flag(UserIsActive(reportDate, frivenDate))
      && rec["report_date"] == StrValue(Format(reportDate))
      && rec["doximity_last_active_date"] == StrValue(Format(m.lastActiveDate))
      && rec["friendly_vendor_last_active_date"] == StrValue(f.lastActiveDate)
      && WorkerIdField !in rec
  {
    ParseThenFormat(f.lastActiveDate);
    ToRowNumbers(Assemble(reportDate, m, f, Parse(f.lastActiveDate).value));
    ToRowDates(Assemble(reportDate, m, f, Parse(f.lastActiveDate).value));
  }

  /** Once stamped with a worker id, a match record has every column the
      writer inserts, so the writer never raises `KeyError` for it. */
  lemma ToRowComplete(r: MatchRecord, workerId: int)
    ensures Complete(Stamp(ToRow(r), workerId))
  {
    var rec := Stamp(ToRow(r), workerId);
    forall k | 0 <= k < |Fields| ensures Fields[k] in rec {
      assert Fields[k] in rec;
    }
  }

  lemma MatchRecordComplete(reportDate: CalendarDate, m: MysqlUser, f: FrivenUser, workerId: int)
    requires Parse(f.lastActiveDate).Some?
    ensures Complete(Stamp(CreateMatchRecord(reportDate, m, f).value, workerId))
  {
    ToRowComplete(Assemble(reportDate, m, f, Parse(f.lastActiveDate).value), workerId);
  }

  // ---------------------------------------------------------------------
  // The MySQL index and the probe

  /** No two items share a key. */
  predicate DistinctBy<T>(key: T -> string, items: seq<T>) {
    forall i, j :: 0 <= i < j < |items| ==> key(items[i]) != key(items[j])
  }

  /** A dictionary filled item by item under `key`; a later item with the
      same key would replace an earlier one. */
  function Index<T>(key: T -> string, items: seq<T>): (d: map<string, T>)
    ensures forall i :: 0 <= i < |items| ==> key(items[i]) in d
    ensures forall k :: k in d ==> exists i :: 0 <= i < |items| && key(items[i]) == k
  {
    if items == [] then map[]
    else
      var init := items[..|items| - 1];
      var last := items[|items| - 1];
      assert forall i :: 0 <= i < |init| ==> init[i] == items[i];
      Index(key, init)[key(last) := last]
  }

  /** With distinct keys every item is found under its own key. */
  lemma {:induction false} IndexFinds<T>(key: T -> string, items: seq<T>, i: int)
    requires DistinctBy(key, items) && 0 <= i < |items|
    ensures Index(key, items)[key(items[i])] == items[i]
    decreases |items|
  {
    var n := |items| - 1;
    if i < n {
      var init := items[..n];
      DistinctPrefix(key, items, n);
      assert init[i] == items[i];
      IndexFinds(key, init, i);
      assert key(items[i]) != key(items[n]);
    }
  }

  lemma DistinctPrefix<T>(key: T -> string, items: seq<T>, n: nat)
    requires DistinctBy(key, items) && n <= |items|
    ensures DistinctBy(key, items[..n])
  {
    forall a, b | 0 <= a < b < n ensures key(items[..n][a]) != key(items[..n][b]) {
      assert items[..n][a] == items[a] && items[..n][b] == items[b];
    }
  }

  /** A repeated key in a prefix is a repeated key in the whole. */
  lemma NotDistinctExtends<T>(key: T -> string, items: seq<T>, n: nat)
    requires n <= |items| && !DistinctBy(key, items[..n])
    ensures !DistinctBy(key, items)
  {
    var a, b :| 0 <= a < b < n && key(items[..n][a]) == key(items[..n][b]);
    assert items[..n][a] == items[a] && items[..n][b] == items[b];
  }

  /** One more item keeps the keys distinct exactly when its key is new. */
  lemma DistinctSnoc<T>(key: T -> string, items: seq<T>, x: T)
    requires DistinctBy(key, items)
    ensures DistinctBy(key, items + [x]) <==> key(x) !in Index(key, items)
    ensures Index(key, items + [x]) == Index(key, items)[key(x) := x]
  {
    var s := items + [x];
    assert s[..|items|] == items;
    if key(x) in Index(key, items) {
      var j :| 0 <= j < |items| && key(items[j]) == key(x);
      assert s[j] == items[j] && s[|items|] == x;
    } else {
      forall a, b | 0 <= a < b < |s| ensures key(s[a]) != key(s[b]) {
        assert s[a] == items[a];
        if b < |items| {
          assert s[b] == items[b];
        }
      }
    }
  }

  /** The loop of `_build_mysql_dict` for any key: `ok` is false when
      `assert item_key not in return_dict` fails. */
  method BuildIndex<T>(key: T -> string, items: seq<T>) returns (dict: map<string, T>, ok: bool)
    ensures ok <==> DistinctBy(key, items)
    ensures ok ==> dict == Index(key, items)
  {
    dict := map[];
    var i := 0;
    while i < |items|
      invariant 0 <= i <= |items|
      invariant DistinctBy(key, items[..i])
      invariant dict == Index(key, items[..i])
    {
      var item := items[i];
      var k := key(item);
      PrefixSnoc(items, i);
      DistinctSnoc(key, items[..i], item);
      if k in dict {
        NotDistinctExtends(key, items, i + 1);
        return dict, false;
      }
      dict := dict[k := item];
      i := i + 1;
    }
    assert items[..i] == items;
    return dict, true;
  }

  /** `_build_mysql_dict` */
  method BuildMysqlDict(users: seq<MysqlUser>) returns (dict: map<string, MysqlUser>, ok: bool)
    ensures ok <==> DistinctBy(UserKey, users)
    ensures ok ==> dict == Index(UserKey, users)
  {
    dict, ok := BuildIndex(UserKey, users);
  }

  // ---------------------------------------------------------------------
  // Combining a group

  /** The items whose key is in `dict`, in order, each with the entry found
      under its key. */
  function Probe<T, U>(key: U -> string, dict: map<string, T>, items: seq<U>): seq<(T, U)>
  {
    if items == [] then []
    else
      var x := items[|items| - 1];
      Probe(key, dict, items[..|items| - 1]) + (if key(x) in dict then [(dict[key(x)], x)] else [])
  }

  /** An item yields a pair exactly when its key is in the dictionary;
      items without a partner yield nothing. */
  lemma {:induction false} ProbeMeaning<T, U>(key: U -> string, dict: map<string, T>, items: seq<U>)
    ensures |Probe(key, dict, items)| <= |items|
    ensures forall p :: p in Probe(key, dict, items) ==>
      p.1 in items && key(p.1) in dict && p.0 == dict[key(p.1)]
    ensures forall x :: x in items && key(x) in dict ==> (dict[key(x)], x) in Probe(key, dict, items)
    decreases |items|
  {
    if items != [] {
      var init := items[..|items| - 1];
      ProbeMeaning(key, dict, init);
      assert items == init + [items[|items| - 1]];
    }
  }

  /** The pairs `combine` processes: each Friendly Vendor user whose key is
      in the index, in list order, with the MySQL user found there. */
  function Pairs(dict: map<string, MysqlUser>, frivens: seq<FrivenUser>): seq<(MysqlUser, FrivenUser)> {
    Probe(FrivenKey, dict, frivens)
  }

  /** `f` applied to each item, in order. */
  function MapSeq<T, U>(f: T -> U, items: seq<T>): (r: seq<U>)
    ensures |r| == |items| && forall i :: 0 <= i < |items| ==> r[i] == f(items[i])
  {
    seq(|items|, i requires 0 <= i < |items| => f(items[i]))
  }

  lemma MapSeqAppend<T, U>(f: T -> U, a: seq<T>, b: seq<T>)
    ensures MapSeq(f, a + b) == MapSeq(f, a) + MapSeq(f, b)
  {
    var whole := MapSeq(f, a + b);
    var parts := MapSeq(f, a) + MapSeq(f, b);
    forall i | 0 <= i < |whole| ensures whole[i] == parts[i] {
      if i < |a| {
        assert (a + b)[i] == a[i];
      } else {
        assert (a + b)[i] == b[i - |a|];
      }
    }
  }

  /** `_create_match_record` for a pair. */
  function Attempt(reportDate: CalendarDate): ((MysqlUser, FrivenUser)) -> Result<Row, CombineError> {
    (p: (MysqlUser, FrivenUser)) => CreateMatchRecord(reportDate, p.0, p.1)
  }

  /** The outcome of `_create_match_record` for each pair, in order. */
  function Attempts(reportDate: CalendarDate, pairs: seq<(MysqlUser, FrivenUser)>): seq<Result<Row, CombineError>> {
    MapSeq(Attempt(reportDate), pairs)
  }

  /** Every attempt produced a record. */
  predicate AllBuilt(attempts: seq<Result<Row, CombineError>>) {
    forall i :: 0 <= i < |attempts| ==> attempts[i].Success?
  }

  /** The records of attempts that all succeeded. */
  function Built(attempts: seq<Result<Row, CombineError>>): (recs: seq<Row>)
    requires AllBuilt(attempts)
    ensures |recs| == |attempts|
    ensures forall i :: 0 <= i < |attempts| ==> attempts[i] == Success(recs[i])
  {
    seq(|attempts|, i requires 0 <= i < |attempts| => attempts[i].value)
  }

  /** Every record of a group is built exactly when every paired Friendly
      Vendor date parses. */
  lemma AttemptsBuilt(reportDate: CalendarDate, pairs: seq<(MysqlUser, FrivenUser)>)
    ensures AllBuilt(Attempts(reportDate, pairs)) <==>
      forall i :: 0 <= i < |pairs| ==> Parse(pairs[i].1.lastActiveDate).Some?
  {
    var attempts := Attempts(reportDate, pairs);
    if forall i :: 0 <= i < |pairs| ==> Parse(pairs[i].1.lastActiveDate).Some? {
      forall i | 0 <= i < |pairs| ensures attempts[i].Success? {
        assert attempts[i] == CreateMatchRecord(reportDate, pairs[i].0, pairs[i].1);
      }
    } else {
      var i :| 0 <= i < |pairs| && Parse(pairs[i].1.lastActiveDate).None?;
      assert attempts[i] == CreateMatchRecord(reportDate, pairs[i].0, pairs[i].1);
    }
  }

  /** Every built record is complete once stamped. */
  lemma BuiltComplete(reportDate: CalendarDate, pairs: seq<(MysqlUser, FrivenUser)>, workerId: int)
    requires AllBuilt(Attempts(reportDate, pairs))
    ensures AllComplete(Built(Attempts(reportDate, pairs)), workerId)
  {
    var attempts := Attempts(reportDate, pairs);
    var recs := Built(attempts);
    forall i | 0 <= i < |recs| ensures Complete(Stamp(recs[i], workerId)) {
      assert attempts[i] == CreateMatchRecord(reportDate, pairs[i].0, pairs[i].1);
      MatchRecordComplete(reportDate, pairs[i].0, pairs[i].1, workerId);
    }
  }

  /** What `combine` acts on: the collector's samples and match count, and
      the writer's state. */
  datatype EngineState = EngineState(samples: seq<Row>, numMatches: int, writer: WriterState)

  /** `_process_match` once the record has been attempted: offer it as a
      sample, count it, and hand it to the writer, in that order. */
  function MatchStep(s: EngineState, attempt: Result<Row, CombineError>): (EngineState, Option<CombineError>) {
    match attempt
    case Failure(e) => (s, Some(e))
    case Success(rec) =>
      var (w, err) := AfterAddRecord(s.writer, rec);
      (EngineState(SampleStep(s.samples, rec), s.numMatches + 1, w),
       if err.Some? then Some(WriterFault(err.value)) else None)
  }

  /** `MatchStep` for each attempt in turn, stopping at the first error. */
  function Feed(s: EngineState, attempts: seq<Result<Row, CombineError>>): (EngineState, Option<CombineError>) {
    if attempts == [] then (s, None)
    else
      var (before, err) := Feed(s, attempts[..|attempts| - 1]);
      if err.Some? then (before, err) else MatchStep(before, attempts[|attempts| - 1])
  }

  /** One iteration of the loop of `combine`: a match step when the user's
      key is in the index, nothing otherwise. */
  function Visited(s: EngineState, reportDate: CalendarDate, dict: map<string, MysqlUser>,
                   f: FrivenUser): (EngineState, Option<CombineError>)
  {
    if FrivenKey(f) in dict then MatchStep(s, CreateMatchRecord(reportDate, dict[FrivenKey(f)], f))
    else (s, None)
  }

  /** The loop of `combine` over `frivens`: a match step for each user whose
      key is in the index. */
  function MatchAll(s: EngineState, reportDate: CalendarDate, dict: map<string, MysqlUser>,
                    frivens: seq<FrivenUser>): (EngineState, Option<CombineError>)
  {
    Feed(s, Attempts(reportDate, Pairs(dict, frivens)))
  }

  /** `combine(friven_user_list, mysql_user_list)` */
  function Combined(s: EngineState, reportDate: CalendarDate, frivens: seq<FrivenUser>,
                    mysqls: seq<MysqlUser>): (EngineState, Option<CombineError>)
  {
    if frivens == [] then (s, Some(NoFrivenUsers))
    else if !DistinctBy(UserKey, mysqls) then (s, Some(DuplicateKey))
    else MatchAll(s, reportDate, Index(UserKey, mysqls), frivens)
  }

  /** An empty Friendly Vendor list, or two MySQL users with one key, raise
      before any match is processed: nothing changes. */
  lemma CombineRejects(s: EngineState, reportDate: CalendarDate, frivens: seq<FrivenUser>,
                       mysqls: seq<MysqlUser>)
    requires frivens == [] || !DistinctBy(UserKey, mysqls)
    ensures var (after, err) := Combined(s, reportDate, frivens, mysqls);
      after == s && err.Some?
      && (err.value == DuplicateKey <==> frivens != [])
  {
  }

  lemma FeedSnoc(s: EngineState, attempts: seq<Result<Row, CombineError>>, attempt: Result<Row, CombineError>)
    ensures var (before, err) := Feed(s, attempts);
      Feed(s, attempts + [attempt]) == if err.Some? then (before, err) else MatchStep(before, attempt)
  {
    assert (attempts + [attempt])[..|attempts|] == attempts;
  }

  /** When every record is built and the writer raises nothing, the records
      go to the writer in order, each one is counted, and each one is
      offered as a sample. */
  lemma {:induction false} FeedMeaning(s: EngineState, attempts: seq<Result<Row, CombineError>>)
    requires AllBuilt(attempts)
    requires AfterAddRecords(s.writer, Built(attempts)).1.None?
    ensures var recs := Built(attempts);
      Feed(s, attempts)
      == (EngineState(Samples(s.samples, recs), s.numMatches + |recs|, AfterAddRecords(s.writer, recs).0), None)
    decreases |attempts|
  {
    if attempts != [] {
      var n := |attempts| - 1;
      var init := attempts[..n];
      BuiltSnoc(attempts);
      var front := Built(init);
      var rec := attempts[n].value;
      AddedRecordStep(s, front, rec);
      FeedMeaning(s, init);
      FeedLast(s, attempts, rec);
    }
  }

  /** Feeding a sequence whose front raised nothing is one match step on
      the state the front left. */
  lemma FeedLast(s: EngineState, attempts: seq<Result<Row, CombineError>>, rec: Row)
    requires attempts != [] && attempts[|attempts| - 1] == Success(rec)
    requires Feed(s, attempts[..|attempts| - 1]).1.None?
    ensures Feed(s, attempts) == MatchStep(Feed(s, attempts[..|attempts| - 1]).0, Success(rec))
  {
    FeedSnoc(s, attempts[..|attempts| - 1], Success(rec));
    SplitLast(attempts);
  }

  /** The match step for one more record, on the state the records `front`
      left, is the state the records `front + [rec]` leave. */
  lemma AddedRecordStep(s: EngineState, front: seq<Row>, rec: Row)
    requires AfterAddRecords(s.writer, front + [rec]).1.None?
    ensures AfterAddRecords(s.writer, front).1.None?
    ensures MatchStep(EngineState(Samples(s.samples, front), s.numMatches + |front|, AfterAddRecords(s.writer, front).0),
                      Success(rec))
      == (EngineState(Samples(s.samples, front + [rec]), s.numMatches + |front + [rec]|,
                      AfterAddRecords(s.writer, front + [rec]).0), None)
  {
    AfterAddRecordsSnoc(s.writer, front, rec);
    var mid := AfterAddRecords(s.writer, front);
    var before := EngineState(Samples(s.samples, front), s.numMatches + |front|, mid.0);
    MatchStepBuilt(before, rec);
    SamplesSnoc(s.samples, front, rec);
  }

  /** A built record is offered as a sample, counted and handed to the
      writer; the step raises exactly when the writer does. */
  lemma MatchStepBuilt(s: EngineState, rec: Row)
    ensures var (w, err) := AfterAddRecord(s.writer, rec);
      MatchStep(s, Success(rec))
      == (EngineState(SampleStep(s.samples, rec), s.numMatches + 1, w),
          if err.Some? then Some(WriterFault(err.value)) else None)
  {
  }

  /** A non-empty sequence is its front followed by its last element. */
  lemma SplitLast<T>(s: seq<T>)
    requires s != []
    ensures s == s[..|s| - 1] + [s[|s| - 1]]
  {
  }

  /** The records of all but the last attempt, then the last one's. */
  lemma BuiltSnoc(attempts: seq<Result<Row, CombineError>>)
    requires AllBuilt(attempts) && attempts != []
    ensures AllBuilt(attempts[..|attempts| - 1])
    ensures Built(attempts) == Built(attempts[..|attempts| - 1]) + [attempts[|attempts| - 1].value]
  {
    var n := |attempts| - 1;
    var init := attempts[..n];
    forall i | 0 <= i < n ensures init[i].Success? {
      assert init[i] == attempts[i];
    }
    var front := Built(init);
    forall i | 0 <= i < |attempts| ensures Built(attempts)[i] == (front + [attempts[n].value])[i] {
      if i < n {
        assert init[i] == attempts[i];
      }
    }
  }

  /** Once an attempt has raised, later attempts change nothing. */
  lemma {:induction false} FeedStops(s: EngineState, a: seq<Result<Row, CombineError>>, b: seq<Result<Row, CombineError>>)
    requires Feed(s, a).1.Some?
    ensures Feed(s, a + b) == Feed(s, a)
    decreases |b|
  {
    if b == [] {
      assert a + b == a;
    } else {
      var init := b[..|b| - 1];
      FeedStops(s, a, init);
      assert a + b == (a + init) + [b[|b| - 1]];
      FeedSnoc(s, a + init, b[|b| - 1]);
    }
  }

  lemma {:induction false} ProbeAppend<T, U>(key: U -> string, dict: map<string, T>, a: seq<U>, b: seq<U>)
    ensures Probe(key, dict, a + b) == Probe(key, dict, a) + Probe(key, dict, b)
    decreases |b|
  {
    if b == [] {
      assert a + b == a;
    } else {
      var init := b[..|b| - 1];
      ProbeAppend(key, dict, a, init);
      assert (a + b)[..|a + b| - 1] == a + init;
    }
  }

  lemma AttemptsAppend(reportDate: CalendarDate, a: seq<(MysqlUser, FrivenUser)>, b: seq<(MysqlUser, FrivenUser)>)
    ensures Attempts(reportDate, a + b) == Attempts(reportDate, a) + Attempts(reportDate, b)
  {
    MapSeqAppend(Attempt(reportDate), a, b);
  }

  /** One more Friendly Vendor user is one more match step when its key is
      in the index and nothing has raised yet. */
  lemma MatchAllSnoc(s: EngineState, reportDate: CalendarDate, dict: map<string, MysqlUser>,
                     frivens: seq<FrivenUser>, f: FrivenUser)
    ensures var (before, err) := MatchAll(s, reportDate, dict, frivens);
      MatchAll(s, reportDate, dict, frivens + [f])
      == if err.Some? then (before, err) else Visited(before, reportDate, dict, f)
  {
    var pairs := Pairs(dict, frivens);
    assert (frivens + [f])[..|frivens|] == frivens;
    if FrivenKey(f) in dict {
      var p := (dict[FrivenKey(f)], f);
      assert Pairs(dict, frivens + [f]) == pairs + [p];
      AttemptsAppend(reportDate, pairs, [p]);
      FeedSnoc(s, Attempts(reportDate, pairs), CreateMatchRecord(reportDate, p.0, p.1));
    } else {
      assert Pairs(dict, frivens + [f]) == pairs;
    }
  }

  /** Once the loop has raised, later users change nothing. */
  lemma MatchAllStops(s: EngineState, reportDate: CalendarDate,
                      dict: map<string, MysqlUser>, frivens: seq<FrivenUser>, n: nat)
    requires n <= |frivens| && MatchAll(s, reportDate, dict, frivens[..n]).1.Some?
    ensures MatchAll(s, reportDate, dict, frivens) == MatchAll(s, reportDate, dict, frivens[..n])
  {
    assert frivens == frivens[..n] + frivens[n..];
    ProbeAppend(FrivenKey, dict, frivens[..n], frivens[n..]);
    AttemptsAppend(reportDate, Pairs(dict, frivens[..n]), Pairs(dict, frivens[n..]));
    FeedStops(s, Attempts(reportDate, Pairs(dict, frivens[..n])), Attempts(reportDate, Pairs(dict, frivens[n..])));
  }

  /** Outside dry run, with every date parsing and the writer's buffer
      complete, `combine` raises nothing and loses no record: each record
      of `Pairs` is either among the calls made since or still buffered, in
      order. */
  lemma CombineLosesNothing(s: EngineState, reportDate: CalendarDate,
                            dict: map<string, MysqlUser>, frivens: seq<FrivenUser>)
    requires AllBuilt(Attempts(reportDate, Pairs(dict, frivens)))
    requires s.writer.capacity.Some? && !s.writer.dryRun
    requires AllComplete(s.writer.buffer, s.writer.workerId)
    ensures var recs := Built(Attempts(reportDate, Pairs(dict, frivens)));
      var all := s.writer.buffer + recs;
      var (after, err) := MatchAll(s, reportDate, dict, frivens);
      err.None? && after.numMatches == s.numMatches + |recs|
      && |after.writer.buffer| <= |all|
      && Conserves(all, s.writer.workerId, s.writer.executed, after.writer,
                   all[..|all| - |after.writer.buffer|])
  {
    var attempts := Attempts(reportDate, Pairs(dict, frivens));
    var recs := Built(attempts);
    BuiltComplete(reportDate, Pairs(dict, frivens), s.writer.workerId);
    var all := s.writer.buffer + recs;
    assert AllComplete(all, s.writer.workerId) by {
      forall i | 0 <= i < |all| ensures Complete(Stamp(all[i], s.writer.workerId)) {
        if i >= |s.writer.buffer| {
          assert all[i] == recs[i - |s.writer.buffer|];
        }
      }
    }
    AddRecordsConserve(s.writer, recs);
    FeedMeaning(s, attempts);
  }

  /** The engine's test group: Kyle Nistler appears twice on the Friendly
      Vendor side and once on the MySQL side, so both yield a match with the
      same MySQL user (a multi-match), and nobody else matches. */
  lemma TwoKylesBothMatch(dict: map<string, MysqlUser>, rona: FrivenUser, kyle1: FrivenUser,
                          kyle2: FrivenUser, kyle: MysqlUser)
    requires FrivenKey(rona) !in dict
    requires FrivenKey(kyle1) == FrivenKey(kyle2) == UserKey(kyle)
    requires UserKey(kyle) in dict && dict[UserKey(kyle)] == kyle
    ensures Pairs(dict, [rona, kyle1, kyle2]) == [(kyle, kyle1), (kyle, kyle2)]
  {
    assert Pairs(dict, [rona]) == [] by {
      assert [rona][..0] == [];
      assert Pairs(dict, []) == [];
      assert FrivenKey([rona][0]) !in dict;
    }
    assert Pairs(dict, [rona, kyle1]) == [(kyle, kyle1)] by {
      assert [rona, kyle1][..1] == [rona];
    }
    assert [rona, kyle1, kyle2][..2] == [rona, kyle1];
  }

  class CombiningEngine {
    const metrics: MetricsCollector
    const writer: MysqlWriter
    const reportDate: CalendarDate

    ghost predicate Valid()
      reads metrics
    {
      metrics.Valid()
    }

    /** The part of the collector and the writer that `combine` changes. */
    function View(): EngineState
      reads metrics, writer
    {
      EngineState(metrics.sampleRows, metrics.numMatches, writer.State())
    }

    /** `CombiningEngine(metrics_collector, report_date, mysql_writer)`, with
        the report date already parsed (`Dates.Parse`). */
    constructor (metricsCollector: MetricsCollector, date: CalendarDate, mysqlWriter: MysqlWriter)
      ensures metrics == metricsCollector && writer == mysqlWriter && reportDate == date
    {
      metrics := metricsCollector;
      writer := mysqlWriter;
      reportDate := date;
    }

    /** `_process_match(mysql_user, friven_user)` */
    method ProcessMatch(m: MysqlUser, f: FrivenUser) returns (err: Option<CombineError>)
      requires Valid()
      modifies metrics, writer
      ensures Valid()
      ensures metrics.startTime == old(metrics.startTime) && metrics.endTime == old(metrics.endTime)
      ensures (View(), err) == MatchStep(old(View()), CreateMatchRecord(reportDate, m, f))
    {
      var record := CreateMatchRecord(reportDate, m, f);
      if record.Failure? {
        return Some(record.error);
      }
      err := Deliver(record.value);
    }

    /** The rest of `_process_match` once the record exists: sample, count,
        write. */
    method Deliver(rec: Row) returns (err: Option<CombineError>)
      requires Valid()
      modifies metrics, writer
      ensures Valid()
      ensures metrics.startTime == old(metrics.startTime) && metrics.endTime == old(metrics.endTime)
      ensures (View(), err) == MatchStep(old(View()), Success(rec))
    {
      metrics.AddSampleRow(rec);
      metrics.IncrementMatches();
      var writeErr := writer.AddRecord(rec);
      if writeErr.Some? {
        return Some(WriterFault(writeErr.value));
      }
      return None;
    }

    /** One iteration of the loop of `combine`: process the match when the
        user's key is in the index. */
    method Visit(dict: map<string, MysqlUser>, f: FrivenUser) returns (err: Option<CombineError>)
      requires Valid()
      modifies metrics, writer
      ensures Valid()
      ensures metrics.startTime == old(metrics.startTime) && metrics.endTime == old(metrics.endTime)
      ensures (View(), err) == Visited(old(View()), reportDate, dict, f)
    {
      var key := FrivenKey(f);
      if key in dict {
        err := ProcessMatch(dict[key], f);
      } else {
        err := None;
      }
    }

    /** `combine(friven_user_list, mysql_user_list)` */
    method Combine(frivens: seq<FrivenUser>, mysqls: seq<MysqlUser>) returns (err: Option<CombineError>)
      requires Valid()
      modifies metrics, writer
      ensures Valid()
      ensures metrics.startTime == old(metrics.startTime) && metrics.endTime == old(metrics.endTime)
      ensures (View(), err) == Combined(old(View()), reportDate, frivens, mysqls)
    {
      if frivens == [] {
        return Some(NoFrivenUsers);
      }
      var dict, ok := BuildMysqlDict(mysqls);
      if !ok {
        return Some(DuplicateKey);
      }
      ghost var start := View();
      var i := 0;
      while i < |frivens|
        invariant 0 <= i <= |frivens|
        invariant Valid()
        invariant metrics.startTime == old(metrics.startTime) && metrics.endTime == old(metrics.endTime)
        invariant MatchAll(start, reportDate, dict, frivens[..i]) == (View(), None)
      {
        var f := frivens[i];
        PrefixSnoc(frivens, i);
        MatchAllSnoc(start, reportDate, dict, frivens[..i], f);
        err := Visit(dict, f);
        if err.Some? {
          MatchAllStops(start, reportDate, dict, frivens, i + 1);
          return err;
        }
        i := i + 1;
      }
      assert frivens[..i] == frivens;
      return None;
    }
  }
}
