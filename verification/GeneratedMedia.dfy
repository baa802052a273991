/**
 * Upload quota around the media of one generated result: service/generated_resource.go, upload_quota.go,
 * storage_lock.go.
 */
module GeneratedMedia {
  import opened Wrappers

  type Day = s: string | s != "" witness "1970-01-01"

  datatype Status = Pending | Ready | Failed

  datatype Source = Source(task: string, attempt: string)

  /** A resource row; its id is its place in the table. */
  datatype Resource = Resource(source: Option<Source>, path: string, sha: string, size: nat, mime: string,
                               status: Status, quotaDay: string, updatedAt: int)

  /** A row as it was read, with its id. */
  datatype Loaded = Loaded(id: nat, row: Resource)

  datatype Candidate = Candidate(path: string, sha: string, size: nat, mime: string, resource: Option<Loaded>,
                                 quotaDay: string, quotaReserved: bool, dailyReserved: bool)

  datatype Options = Options(source: Option<Source>, enforceQuota: bool, recoverPendingNow: bool)

  const STALE_AFTER := 180_000

  predicate Usable(row: Resource) {
    row.status == Pending || row.status == Ready
  }

  predicate SameOutput(a: Resource, b: Resource) {
    a.source.Some? && a.source == b.source && a.path == b.path
  }

  /** The unique index on task outputs. */
  ghost predicate Indexed(rows: seq<Resource>) {
    forall i, j :: 0 <= i < |rows| && 0 <= j < |rows| && i != j && Usable(rows[i]) && Usable(rows[j]) ==>
      !SameOutput(rows[i], rows[j])
  }

  /** A media type with its letters in lower case; two types are the same if these are equal. */
  function Folded(mime: string): string {
    seq(|mime|, k requires 0 <= k < |mime| => if 'A' <= mime[k] <= 'Z' then mime[k] - 'A' + 'a' else mime[k])
  }

  // ---------------------------------------------------------------- what is reserved and what rows carry

  datatype Account = InProcess | OnDay(day: string)

  /** The bytes a candidate still holds in an account. */
  function Holds(c: Candidate, account: Account): nat {
    match account
    case InProcess => if c.quotaReserved then c.size else 0
    case OnDay(day) => if c.dailyReserved && c.quotaDay == day then c.size else 0
  }

  function Total(cs: seq<Candidate>, account: Account): nat {
    if cs == [] then 0 else Total(cs[..|cs| - 1], account) + Holds(cs[|cs| - 1], account)
  }

  /** A row that stays and whose bytes its quota day has been charged for. */
  predicate Bears(row: Resource, day: string) {
    row.quotaDay == day && (row.status == Ready || (row.status == Pending && row.source.Some?))
  }

  /** The bytes surviving rows carry for a day; `unpaid` are rows whose day was given back while they survived. */
  function Carried(rows: seq<Resource>, unpaid: set<nat>, day: string): nat {
    if rows == [] then 0
    else
      var last := |rows| - 1;
      Carried(rows[..last], unpaid, day) + if last !in unpaid && Bears(rows[last], day) then rows[last].size else 0
  }

  lemma {:induction false} TotalUpdated(cs: seq<Candidate>, i: nat, c: Candidate, account: Account)
    requires i < |cs|
    ensures Total(cs[i := c], account) == Total(cs, account) - Holds(cs[i], account) + Holds(c, account)
    ensures Total(cs, account) >= Holds(cs[i], account)
  {
    var last := |cs| - 1;
    if i == last {
      assert cs[i := c][..last] == cs[..last];
    } else {
      assert cs[i := c][..last] == cs[..last][i := c];
      TotalUpdated(cs[..last], i, c, account);
    }
  }

  lemma {:induction false} NothingHeld(cs: seq<Candidate>, account: Account)
    requires forall c :: c in cs ==> Holds(c, account) == 0
    ensures Total(cs, account) == 0
  {
    if cs != [] {
      NothingHeld(cs[..|cs| - 1], account);
    }
  }

  function BearsBytes(row: Resource, id: nat, unpaid: set<nat>, day: string): nat {
    if id !in unpaid && Bears(row, day) then row.size else 0
  }

  lemma {:induction false} CarriedUpdated(rows: seq<Resource>, unpaid: set<nat>, i: nat, row: Resource, day: string)
    requires i < |rows|
    ensures Carried(rows[i := row], unpaid, day)
         == Carried(rows, unpaid, day) - BearsBytes(rows[i], i, unpaid, day) + BearsBytes(row, i, unpaid, day)
  {
    var last := |rows| - 1;
    if i == last {
      assert rows[i := row][..last] == rows[..last];
    } else {
      assert rows[i := row][..last] == rows[..last][i := row];
      CarriedUpdated(rows[..last], unpaid, i, row, day);
    }
  }

  lemma CarriedAppended(rows: seq<Resource>, unpaid: set<nat>, row: Resource, day: string)
    ensures Carried(rows + [row], unpaid, day) == Carried(rows, unpaid, day) + BearsBytes(row, |rows|, unpaid, day)
  {
  }

  lemma {:induction false} CarriedUnpaid(rows: seq<Resource>, unpaid: set<nat>, i: nat, day: string)
    ensures Carried(rows, unpaid + {i}, day)
         == Carried(rows, unpaid, day) - if i < |rows| then BearsBytes(rows[i], i, unpaid, day) else 0
  {
    if rows != [] {
      CarriedUnpaid(rows[..|rows| - 1], unpaid, i, day);
    }
  }

  /** The bytes charged, on whatever day, for one task output. */
  function OutputBytes(rows: seq<Resource>, unpaid: set<nat>, output: Resource): nat {
    if rows == [] then 0
    else
      var last := |rows| - 1;
      OutputBytes(rows[..last], unpaid, output)
      + if SameOutput(rows[last], output) then BearsBytes(rows[last], last, unpaid, rows[last].quotaDay) else 0
  }

  lemma {:induction false} NoRowNoBytes(rows: seq<Resource>, unpaid: set<nat>, output: Resource)
    requires forall i :: 0 <= i < |rows| && Usable(rows[i]) ==> !SameOutput(rows[i], output)
    ensures OutputBytes(rows, unpaid, output) == 0
  {
    if rows != [] {
      NoRowNoBytes(rows[..|rows| - 1], unpaid, output);
    }
  }

  /** Whatever was interrupted and run again, one output is charged to at most one day, and once. */
  lemma {:induction false} ChargedOnce(rows: seq<Resource>, unpaid: set<nat>, output: Resource, size: nat)
    requires Indexed(rows) && output.source.Some?
    requires forall i :: 0 <= i < |rows| && SameOutput(rows[i], output) ==> rows[i].size == size
    ensures OutputBytes(rows, unpaid, output) <= size
  {
    if rows != [] {
      var last := |rows| - 1;
      if SameOutput(rows[last], output) && Usable(rows[last]) {
        NoRowNoBytes(rows[..last], unpaid, output);
      } else {
        ChargedOnce(rows[..last], unpaid, output, size);
      }
    }
  }

  // ---------------------------------------------------------------- the service and its database

  /** What another call may have made of a row meanwhile. */
  predicate Later(before: Resource, after: Resource) {
    && after.source == before.source && after.path == before.path && after.sha == before.sha
    && after.size == before.size && after.mime == before.mime
    && (before.quotaDay != "" ==> after.quotaDay == before.quotaDay)
    && (before.source.Some? && Usable(before) ==> Usable(after))
  }

  /** A candidate whose row was read: the copy still speaks of the same output of the same size. */
  predicate Refers(rows: seq<Resource>, options: Options, c: Candidate) {
    c.resource.Some? ==>
      && c.resource.value.id < |rows| && options.source.Some?
      && var row, copy := rows[c.resource.value.id], c.resource.value.row;
      && row.source == copy.source == options.source && row.path == copy.path == c.path && row.sha == copy.sha == c.sha
      && row.size == copy.size == c.size && row.mime == copy.mime && Folded(copy.mime) == Folded(c.mime)
      && Usable(row) && Usable(copy)
      && (copy.quotaDay != "" ==> row.quotaDay == copy.quotaDay)
  }

  /** The row found for a candidate is one of the same media that is ready or may be recovered. */
  predicate Acceptable(row: Resource, options: Options, c: Candidate, now: int) {
    && row.sha == c.sha && row.size == c.size && Folded(row.mime) == Folded(c.mime)
    && (row.status == Ready || options.recoverPendingNow || now - row.updatedAt >= STALE_AFTER)
  }

  ghost predicate NoObstacle(rows: seq<Resource>, options: Options, c: Candidate, now: int) {
    forall i :: 0 <= i < |rows| && Usable(rows[i]) && rows[i].source == options.source && rows[i].path == c.path ==>
      Acceptable(rows[i], options, c, now)
  }

  /** A candidate to be recovered, whose row has a quota day on both sides. */
  predicate Bound(c: Candidate) {
    c.resource.Some? && c.resource.value.row.status == Pending ==>
      c.resource.value.row.quotaDay != "" && !c.dailyReserved
  }

  predicate Sane(c: Candidate) {
    && (c.dailyReserved ==> c.quotaReserved && c.quotaDay != "")
    && (c.quotaReserved ==> c.size > 0)
    && (c.quotaReserved && c.resource.None? ==> c.dailyReserved)
  }

  predicate Fresh(c: Candidate) {
    c.resource.None? && c.quotaDay == "" && !c.quotaReserved && !c.dailyReserved
  }

  ghost predicate DistinctPaths(cs: seq<Candidate>) {
    forall i, j :: 0 <= i < j < |cs| ==> cs[i].path != cs[j].path
  }

  predicate Done(c: Candidate) {
    c.resource.Some? && c.resource.value.row.status == Ready && c.resource.value.row.size == c.size
    && c.resource.value.row.sha == c.sha && Folded(c.resource.value.row.mime) == Folded(c.mime)
    && c.resource.value.row.path == c.path
  }

  // ---------------------------------------------------------------- what a calm run starts from and keeps

  /** The bytes of all ready resources. */
  function ReadyBytes(rows: seq<Resource>): nat {
    if rows == [] then 0
    else ReadyBytes(rows[..|rows| - 1]) + if rows[|rows| - 1].status == Ready then rows[|rows| - 1].size else 0
  }

  function BytesOn(uploads: map<Day, nat>, day: Day): nat {
    if day in uploads then uploads[day] else 0
  }

  /** At most so many bytes were added to each account. */
  ghost predicate WithinMore(pending: nat, uploads: map<Day, nat>, pending0: nat, uploads0: map<Day, nat>, more: nat) {
    pending <= pending0 + more && forall day: Day :: BytesOn(uploads, day) <= BytesOn(uploads0, day) + more
  }

  lemma WithinBoth(pending: nat, uploads: map<Day, nat>, pending1: nat, uploads1: map<Day, nat>, more1: nat,
                   pending0: nat, uploads0: map<Day, nat>, more0: nat)
    requires WithinMore(pending1, uploads1, pending0, uploads0, more0)
    requires WithinMore(pending, uploads, pending1, uploads1, more1)
    ensures WithinMore(pending, uploads, pending0, uploads0, more0 + more1)
  {
  }

  function Sizes(cs: seq<Candidate>): nat {
    if cs == [] then 0 else Sizes(cs[..|cs| - 1]) + cs[|cs| - 1].size
  }

  /** No usable row has this output. */
  ghost predicate NoRow(rows: seq<Resource>, options: Options, path: string) {
    options.source.Some? ==>
      forall i :: 0 <= i < |rows| && Usable(rows[i]) && rows[i].source == options.source ==> rows[i].path != path
  }

  /** What a look-up in this table gives: a usable row of the output, or none only if there is none. */
  ghost predicate LookedUp(table: seq<Resource>, options: Options, c: Candidate) {
    match c.resource
    case None => NoRow(table, options, c.path)
    case Some(found) =>
      && found.id < |table| && table[found.id] == found.row && Usable(found.row)
      && options.source.Some? && found.row.source == options.source && found.row.path == c.path
  }

  /** Every row of these outputs is of the same media and either ready or up for recovery. */
  ghost predicate NothingInTheWay(rows: seq<Resource>, options: Options, cs: seq<Candidate>, now: int) {
    && (forall k :: 0 <= k < |cs| ==> NoObstacle(rows, options, cs[k], now))
    && forall i :: 0 <= i < |rows| ==> rows[i].updatedAt <= now
  }

  /** The copy of a candidate's row shows its state and its day; without one the output has no row. */
  ghost predicate Matches(rows: seq<Resource>, options: Options, c: Candidate) {
    match c.resource
    case None => NoRow(rows, options, c.path)
    case Some(copy) =>
      && copy.id < |rows| && rows[copy.id].status == copy.row.status && rows[copy.id].quotaDay == copy.row.quotaDay
  }

  /** A claim of the candidate's row would succeed. */
  predicate Claimable(rows: seq<Resource>, options: Options, c: Candidate, now: int) {
    c.resource.Some? && c.resource.value.row.status == Pending ==>
      && c.resource.value.id < |rows| && rows[c.resource.value.id].status == Pending
      && rows[c.resource.value.id].updatedAt <= if options.recoverPendingNow then now else now - STALE_AFTER
  }

  ghost predicate MatchUpTo(rows: seq<Resource>, options: Options, cs: seq<Candidate>, k: nat, now: int) {
    && (forall j :: 0 <= j < |cs| ==> Matches(rows, options, cs[j]))
    && forall j :: k <= j < |cs| ==> Claimable(rows, options, cs[j], now)
  }

  /** Only the time of the claimed row changed, and in its copy. */
  predicate Retouched(rows0: seq<Resource>, rows: seq<Resource>, before: Candidate, c: Candidate) {
    if before.resource.Some? && before.resource.value.row.status == Pending then
      var id, copy := before.resource.value.id, before.resource.value.row;
      && id < |rows0| == |rows| && rows == rows0[id := rows0[id].(updatedAt := rows[id].updatedAt)]
      && c.resource.Some?
      && c == before.(resource := Some(Loaded(id, copy.(updatedAt := c.resource.value.row.updatedAt))))
    else rows == rows0 && c == before
  }

  predicate SameRow(a: Candidate, b: Candidate) {
    && (a.resource.Some? <==> b.resource.Some?)
    && (a.resource.Some? ==>
          a.resource.value.id == b.resource.value.id && a.resource.value.row.status == b.resource.value.row.status)
  }

  /** The candidate's row was made ready, or a ready one was added for it. */
  predicate Wrote(rows0: seq<Resource>, rows: seq<Resource>, before: Candidate, c: Candidate) {
    && c.resource.Some? && c.resource.value.id < |rows|
    && var id := c.resource.value.id;
    && rows[id].status == Ready && rows[id].path == before.path
    && match before.resource
       case None => id == |rows0| && rows == rows0 + [rows[id]]
       case Some(copy) => id == copy.id && |rows| == |rows0| && rows == rows0[id := rows[id]]
  }

  ghost predicate WrittenUpTo(rows: seq<Resource>, options: Options, done: seq<Candidate>, cs: seq<Candidate>, k: nat) {
    && k <= |cs| == |done|
    && (forall j :: 0 <= j < k ==> ReadyFor(rows, done[j], cs[j]))
    && forall j :: k <= j < |cs| ==> Matches(rows, options, cs[j])
  }

  predicate ReadyFor(rows: seq<Resource>, done: Candidate, before: Candidate) {
    && done.resource.Some? && done.resource.value.id < |rows| && rows[done.resource.value.id].status == Ready
    && (before.resource.Some? ==> done.resource.value.id == before.resource.value.id)
  }

  /** Every candidate has its ready row, and it is the one the output had before, if it had one. */
  ghost predicate RowsCompleted(rows0: seq<Resource>, rows: seq<Resource>, options: Options, done: seq<Candidate>) {
    forall k :: 0 <= k < |done| ==>
      && done[k].resource.Some? && done[k].resource.value.id < |rows|
      && rows[done[k].resource.value.id].status == Ready
      && (options.source.Some? ==>
            forall i :: 0 <= i < |rows0| && Usable(rows0[i]) && rows0[i].source == options.source ==>
              rows0[i].path != done[k].path || i == done[k].resource.value.id)
  }

  /** Uploads of one user in one process, with the tables they go to. */
  class UploadService {
    var rows: seq<Resource>
    var daily: map<Day, nat>
    var pendingStorage: nat
    var clock: int
    /** Bytes of the user's session files, which other calls write. */
    var sessionFiles: nat
    const dayOf: int -> Day
    const fileLimit: int
    const dailyLimit: int
    const storedLimit: int

    /** Bytes other calls hold in this process and on each day, and rows whose day they gave back. */
    ghost var othersPending: nat
    ghost var othersDaily: string -> nat
    ghost var othersGiven: set<nat>
    /** Bytes whose release from a day could not be written, and how many such writes failed. */
    ghost var lost: string -> nat
    ghost var failedReleases: nat
    /** Rows created here whose store then failed, and those of them whose day was given back although they survive. */
    ghost var failedStores: set<nat>
    ghost var given: set<nat>

    ghost function Unpaid(): set<nat>
      reads this`given, this`othersGiven
    {
      given + othersGiven
    }

    ghost function Others(): (string -> nat, nat, set<nat>, nat)
      reads this`othersDaily, this`othersPending, this`othersGiven, this`sessionFiles
    {
      (othersDaily, othersPending, othersGiven, sessionFiles)
    }

    ghost function Own(): (set<nat>, set<nat>)
      reads this`failedStores, this`given
    {
      (failedStores, given)
    }

    ghost function DailyBytes(day: Day): nat
      reads this`daily
    {
      BytesOn(daily, day)
    }

    /** The bytes the user has stored: ready resources and session files. */
    function StoredBytes(): nat
      reads this`rows, this`sessionFiles
    {
      ReadyBytes(rows) + sessionFiles
    }

    /** One more file of this size would fit on the current day. */
    predicate Fits(size: nat)
      reads this`rows, this`sessionFiles, this`pendingStorage, this`daily, this`clock
    {
      FitsAt(size, clock)
    }

    predicate FitsAt(size: nat, now: int)
      reads this`rows, this`sessionFiles, this`pendingStorage, this`daily
    {
      FitsStorage(size) && BytesOn(daily, dayOf(now)) + size < dailyLimit
    }

    predicate FitsStorage(size: nat)
      reads this`rows, this`sessionFiles, this`pendingStorage
    {
      0 < size <= fileLimit && StoredBytes() + pendingStorage + size < storedLimit
    }

    /** All files of these candidates would fit together, on whatever day. */
    ghost predicate RoomFor(cs: seq<Candidate>)
      reads this`rows, this`sessionFiles, this`pendingStorage, this`daily
    {
      RoomBeside(cs, pendingStorage, daily)
    }

    /** There is room for all files, if it is asked for, and every row of their outputs may be used or recovered. */
    ghost predicate Unhindered(cs: seq<Candidate>, options: Options)
      reads this`rows, this`sessionFiles, this`pendingStorage, this`daily, this`clock
    {
      NothingInTheWay(rows, options, cs, clock) && (options.enforceQuota ==> RoomFor(cs))
    }

    ghost predicate RoomBeside(cs: seq<Candidate>, pending: nat, uploads: map<Day, nat>)
      reads this`rows, this`sessionFiles
    {
      && (forall k :: 0 <= k < |cs| ==> 0 < cs[k].size <= fileLimit)
      && StoredBytes() + pending + Sizes(cs) < storedLimit
      && forall day: Day :: BytesOn(uploads, day) + Sizes(cs) < dailyLimit
    }

    lemma FitsNext(cs: seq<Candidate>, k: nat, pending0: nat, daily0: map<Day, nat>)
      requires k < |cs| && RoomBeside(cs, pending0, daily0)
      requires WithinMore(pendingStorage, daily, pending0, daily0, Sizes(cs[..k]))
      ensures (forall now :: FitsAt(cs[k].size, now)) && Sizes(cs[..k + 1]) == Sizes(cs[..k]) + cs[k].size
    {
      SizesGrow(cs, k);
      forall now ensures FitsAt(cs[k].size, now) {
        assert BytesOn(daily, dayOf(now)) <= BytesOn(daily0, dayOf(now)) + Sizes(cs[..k]);
      }
    }

    /** The bytes of a day that neither other calls nor rows nor failed releases account for. */
    ghost function Charged(day: Day): int
      reads this
    {
      DailyBytes(day) - lost(day) - othersDaily(day) - Carried(rows, Unpaid(), day)
    }

    ghost predicate Tidy()
      reads this
    {
      && Indexed(rows)
      && (forall id :: id in Unpaid() ==> id < |rows| && rows[id].quotaDay != "")
      && (forall id :: id in failedStores ==> id < |rows|)
    }

    /** Both accounts hold what other calls and surviving rows account for, and what these candidates hold. */
    ghost predicate Books(cs: seq<Candidate>)
      reads this
    {
      && Tidy()
      && pendingStorage == othersPending + Total(cs, InProcess)
      && forall day: Day :: Charged(day) == Total(cs, OnDay(day))
    }

    /** Whatever other calls do between two steps of this one; `own` is a row this call is still writing. */
    method OtherCalls(alone: bool, ghost own: Option<nat>)
      requires Tidy()
      modifies this
      ensures Tidy() && clock >= old(clock)
      ensures Grown(old(rows), rows)
      ensures pendingStorage - othersPending == old(pendingStorage - othersPending)
      ensures forall day: Day :: Charged(day) == old(Charged(day))
      ensures lost == old(lost) && failedReleases == old(failedReleases) && Own() == old(Own())
      ensures own.Some? && own.value !in old(othersGiven) ==> own.value !in othersGiven
      ensures own.Some? && own.value < old(|rows|) && old(rows[own.value]).source.None? ==>
                rows[own.value] == old(rows[own.value])
      ensures alone ==> rows == old(rows) && daily == old(daily) && Others() == old(Others())
    {
      var elapsed: nat, busy: bool, size: nat := *, *, *;
      clock := clock + elapsed;
      if busy && !alone {
        pendingStorage := pendingStorage + size;
        othersPending := othersPending + size;
      }
    }

    /** The same between two candidates, when no row is half written. */
    method Interleave(ghost cs: seq<Candidate>, ghost options: Options, alone: bool)
      requires Books(cs) && forall k :: 0 <= k < |cs| ==> Refers(rows, options, cs[k])
      modifies this
      ensures Books(cs) && forall k :: 0 <= k < |cs| ==> Refers(rows, options, cs[k])
      ensures Grown(old(rows), rows) && lost == old(lost) && failedReleases == old(failedReleases)
      ensures Own() == old(Own())
      ensures alone ==> Others() == old(Others()) && rows == old(rows) && daily == old(daily)
      ensures alone ==> pendingStorage == old(pendingStorage)
      ensures clock >= old(clock)
    {
      hide Indexed, Carried, Total;
      OtherCalls(alone, None);
    }

    /** Write a whole row back. */
    method UpdateRow(id: nat, row: Resource)
      requires Tidy() && id < |rows| && Later(rows[id], row)
      requires Usable(row) ==> Usable(rows[id])
      modifies this`rows
      ensures Tidy() && rows == old(rows)[id := row]
      ensures forall day: Day ::
                Charged(day)
                == old(Charged(day)) + BearsBytes(old(rows)[id], id, Unpaid(), day) - BearsBytes(row, id, Unpaid(), day)
    {
      forall day: Day ensures Carried(rows[id := row], Unpaid(), day)
                           == Carried(rows, Unpaid(), day) - BearsBytes(rows[id], id, Unpaid(), day)
                             + BearsBytes(row, id, Unpaid(), day) {
        CarriedUpdated(rows, Unpaid(), id, row, day);
      }
      rows := rows[id := row];
    }

    method DecreasePendingStorage(size: nat)
      modifies this`pendingStorage
      ensures pendingStorage == if old(pendingStorage) >= size then old(pendingStorage) - size else 0
    {
      var remaining := pendingStorage - size;
      pendingStorage := if remaining > 0 then remaining else 0;
    }

    /** Take bytes of one file in this process and on the current day; on refusal nothing is taken. */
    method ReserveGeneratedResourceQuota(size: nat, calm: bool) returns (day: string, ok: bool)
      modifies this`pendingStorage, this`daily
      ensures ok ==> old(Fits(size))
      ensures calm && old(Fits(size)) ==> ok
      ensures !ok ==> day == "" && pendingStorage == old(pendingStorage) && daily == old(daily)
      ensures ok ==> day == dayOf(clock) && 0 < size <= fileLimit && pendingStorage == old(pendingStorage) + size
      ensures ok ==>
                daily == old(daily)[day := (if day in old(daily) then old(daily)[day] else 0) + size]
                && daily[day] < dailyLimit
    {
      day, ok := "", false;
      var today := dayOf(clock);
      var failing := Falters(calm);
      if failing || size <= 0 || size >= fileLimit + 1 || StoredBytes() + pendingStorage + size >= storedLimit {
        return;
      }
      pendingStorage := pendingStorage + size;
      failing := Falters(calm);
      var bytes := if today in daily then daily[today] else 0;
      if failing || bytes + size >= dailyLimit {
        DecreasePendingStorage(size);
        return;
      }
      daily := daily[today := bytes + size];
      return today, true;
    }

    /** Take bytes in this process only: the row to be recovered has its day already. */
    method ReserveRecoveredStorage(size: nat, calm: bool) returns (ok: bool)
      modifies this`pendingStorage
      ensures ok ==> old(FitsStorage(size))
      ensures calm && old(FitsStorage(size)) ==> ok
      ensures pendingStorage == old(pendingStorage) + if ok then size else 0
    {
      var failing := Falters(calm);
      if failing || size <= 0 || size > fileLimit || StoredBytes() + pendingStorage + size >= storedLimit {
        return false;
      }
      pendingStorage := pendingStorage + size;
      return true;
    }

    method CommitUserUploadQuota(size: nat)
      modifies this`pendingStorage
      ensures pendingStorage == if old(pendingStorage) >= size then old(pendingStorage) - size else 0
    {
      if size > 0 {
        DecreasePendingStorage(size);
      }
    }

    /** The write that gives bytes of a day back; `failing` is the database's answer. */
    method ReleaseDailyUpload(day: string, size: nat, failing: bool) returns (ok: bool)
      modifies this`daily, this`failedReleases
      ensures ok == !failing && failedReleases == old(failedReleases) + if ok then 0 else 1
      ensures ok && day != "" && day in old(daily) ==>
                daily == old(daily)[day := if old(daily)[day] >= size then old(daily)[day] - size else 0]
      ensures !ok || day == "" || day !in old(daily) ==> daily == old(daily)
    {
      if failing {
        failedReleases := failedReleases + 1;
        return false;
      }
      if day != "" && day in daily {
        daily := daily[day := if daily[day] >= size then daily[day] - size else 0];
      }
      return true;
    }

    /** Give bytes back in this process and on a day; a failed write to the day is only logged. */
    method ReleaseUserUploadQuota(day: string, size: nat, failing: bool)
      modifies this`pendingStorage, this`daily, this`lost, this`failedReleases
      ensures day == "" || size == 0 ==> pendingStorage == old(pendingStorage) && daily == old(daily)
      ensures day != "" && size > 0 ==>
                pendingStorage == if old(pendingStorage) >= size then old(pendingStorage) - size else 0
      ensures if day == "" || size == 0 || !failing then lost == old(lost) && failedReleases == old(failedReleases)
              else daily == old(daily) && failedReleases == old(failedReleases) + 1
                   && forall d :: lost(d) == old(lost)(d) + if d == day then size else 0
      ensures day != "" && size > 0 && !failing && day in old(daily) ==>
                daily == old(daily)[day := if old(daily)[day] >= size then old(daily)[day] - size else 0]
      ensures day != "" && size > 0 && !failing && day !in old(daily) ==> daily == old(daily)
    {
      if day == "" || size <= 0 {
        return;
      }
      DecreasePendingStorage(size);
      var released := ReleaseDailyUpload(day, size, failing);
      if !released {
        ghost var before := lost;
        lost := d => before(d) + if d == day then size else 0;
      }
    }

    /** Give back all a candidate holds, in this process and on its day. */
    method ReleaseBoth(cs: seq<Candidate>, k: nat, failing: bool)
      requires Books(cs) && k < |cs| && Sane(cs[k]) && cs[k].dailyReserved
      modifies this`pendingStorage, this`daily, this`lost, this`failedReleases
      ensures Books(cs[k := Released(cs[k])]) && LostByFailure(lost, failedReleases, old(lost), old(failedReleases))
      ensures !failing ==> failedReleases == old(failedReleases)
      ensures !failing ==> forall day: Day ::
                DailyBytes(day) == old(DailyBytes(day)) - if day == cs[k].quotaDay then cs[k].size else 0
    {
      hide Carried, Total, Indexed;
      var c := cs[k];
      ReleasedTotals(cs, k);
      assert Charged(c.quotaDay) >= c.size;
      ReleaseUserUploadQuota(c.quotaDay, c.size, failing);
    }

    /** Drop what a candidate holds in this process, its day being carried by a row or not held at all. */
    method CommitOne(cs: seq<Candidate>, k: nat)
      requires k < |cs| && Sane(cs[k]) && cs[k].quotaReserved && HalfBooks(cs, k, cs[k].dailyReserved)
      modifies this`pendingStorage
      ensures Books(cs[k := Released(cs[k])])
    {
      hide Carried, Total, Indexed;
      ReleasedTotals(cs, k);
      CommitUserUploadQuota(cs[k].size);
    }

    /** The books when a row has come to carry the day of candidate `k` while its flags still stand. */
    ghost predicate HalfBooks(cs: seq<Candidate>, k: nat, borne: bool)
      requires k < |cs|
      reads this
    {
      && Tidy()
      && pendingStorage == othersPending + Total(cs, InProcess)
      && forall day: Day ::
           Charged(day) == Total(cs, OnDay(day)) - if borne && day == cs[k].quotaDay then cs[k].size else 0
    }

    /** Drop what one candidate holds: its day too while nothing else carries it. */
    method ReleaseCandidate(cs: seq<Candidate>, k: nat)
      requires Books(cs) && k < |cs| && Sane(cs[k]) && cs[k].quotaReserved
      modifies this`pendingStorage, this`daily, this`lost, this`failedReleases
      ensures Books(cs[k := Released(cs[k])]) && LostByFailure(lost, failedReleases, old(lost), old(failedReleases))
    {
      if cs[k].dailyReserved {
        var failing: bool := *;
        ReleaseBoth(cs, k, failing);
      } else {
        CommitOne(cs, k);
      }
    }

    method ReleaseGeneratedCandidateQuotas(cs: seq<Candidate>, from: nat, to: nat) returns (freed: seq<Candidate>)
      requires Books(cs) && from <= to <= |cs|
      requires forall k :: from <= k < to ==> Sane(cs[k])
      modifies this`pendingStorage, this`daily, this`lost, this`failedReleases
      ensures Books(freed) && |freed| == |cs|
      ensures forall k :: 0 <= k < |cs| ==>
                freed[k] == if from <= k < to && cs[k].quotaReserved then Released(cs[k]) else cs[k]
      ensures LostByFailure(lost, failedReleases, old(lost), old(failedReleases))
      ensures forall k, options :: 0 <= k < |cs| && Refers(rows, options, cs[k]) ==> Refers(rows, options, freed[k])
    {
      hide Books;
      freed := cs;
      for k := from to to
        invariant Books(freed) && |freed| == |cs|
        invariant forall j :: k <= j < |cs| ==> freed[j] == cs[j]
        invariant forall j :: 0 <= j < k ==>
                    freed[j] == if from <= j && cs[j].quotaReserved then Released(cs[j]) else cs[j]
        invariant LostByFailure(lost, failedReleases, old(lost), old(failedReleases))
      {
        if freed[k].quotaReserved {
          ReleaseCandidate(freed, k);
          freed := freed[k := Released(freed[k])];
        }
      }
    }

    /** The row of a task output: ready before pending. */
    method GeneratedResourceForTaskOutput(source: Source, path: string, failing: bool)
      returns (found: Option<nat>, ok: bool)
      ensures ok == !failing
      ensures ok && found.Some? ==>
                && found.value < |rows| && Usable(rows[found.value])
                && rows[found.value].source == Some(source) && rows[found.value].path == path
      ensures ok && found.None? ==>
                forall i :: 0 <= i < |rows| && Usable(rows[i]) && rows[i].path == path ==>
                  rows[i].source != Some(source)
    {
      found, ok := None, !failing;
      if failing {
        return;
      }
      for i := 0 to |rows|
        invariant found.Some? ==>
                    && found.value < i && Usable(rows[found.value])
                    && rows[found.value].source == Some(source) && rows[found.value].path == path
        invariant found.None? ==>
                    forall j :: 0 <= j < i && Usable(rows[j]) && rows[j].path == path ==>
                      rows[j].source != Some(source)
      {
        if Usable(rows[i]) && rows[i].source == Some(source) && rows[i].path == path {
          if found.None? || rows[found.value].status == Pending {
            found := Some(i);
          }
        }
      }
    }

    /** What the result path has already: nothing, a ready resource, or a pending one that may be recovered. */
    method GeneratedResourceForCandidate(options: Options, c: Candidate, failing: bool)
      returns (resource: Option<Loaded>, ok: bool)
      ensures ok ==> Refers(rows, options, c.(resource := resource))
      ensures ok ==> LookedUp(rows, options, c.(resource := resource))
      ensures ok && resource.Some? ==> resource.value.row == rows[resource.value.id]
      ensures ok && resource.Some? && resource.value.row.status == Pending ==>
                options.recoverPendingNow || clock - resource.value.row.updatedAt >= STALE_AFTER
      ensures ok && options.source.Some? ==> !failing
      ensures !failing && NoObstacle(rows, options, c, clock) ==> ok
      ensures ok && resource.None? && options.source.Some? ==>
                forall i :: 0 <= i < |rows| && Usable(rows[i]) && rows[i].path == c.path ==>
                  rows[i].source != options.source
    {
      resource := None;
      if options.source.None? {
        return None, true;
      }
      var found: Option<nat>;
      found, ok := GeneratedResourceForTaskOutput(options.source.value, c.path, failing);
      if !ok || found.None? {
        return;
      }
      var row := rows[found.value];
      assert options.source.Some? && row.source == options.source;
      if row.sha != c.sha || row.size != c.size || Folded(row.mime) != Folded(c.mime) {
        return None, false;
      }
      if row.status != Ready && !options.recoverPendingNow && clock - row.updatedAt < STALE_AFTER {
        return None, false;
      }
      resource := Some(Loaded(found.value, row));
    }

    /**
     * Find the rows of all candidates; `tables` is the table each was looked up in.  Left alone and without a failing
     * access all are found, unless a row is of other media or still being written.
     */
    method LookUpAll(cs: seq<Candidate>, options: Options, alone: bool, calm: bool)
      returns (found: seq<Candidate>, ok: bool, ghost tables: seq<seq<Resource>>)
      requires Books(cs) && forall k :: 0 <= k < |cs| ==> Fresh(cs[k])
      modifies this
      ensures Books(found) && |found| == |cs|
      ensures forall k :: 0 <= k < |cs| ==> Refers(rows, options, found[k]) && found[k].(resource := None) == cs[k]
      ensures ok ==> |tables| == |cs| && forall k :: 0 <= k < |cs| ==>
                       && Grown(old(rows), tables[k]) && Grown(tables[k], rows)
                       && LookedUp(tables[k], options, found[k])
      ensures lost == old(lost) && failedReleases == old(failedReleases) && Own() == old(Own())
      ensures Grown(old(rows), rows) && clock >= old(clock)
      ensures alone ==> Others() == old(Others()) && rows == old(rows) && daily == old(daily)
      ensures alone ==> pendingStorage == old(pendingStorage)
      ensures alone && ok ==> forall k :: 0 <= k < |cs| ==> LookedUp(rows, options, found[k])
      ensures alone && calm && old(NothingInTheWay(rows, options, cs, clock)) ==> ok
    {
      hide Books, Refers, LookedUp, NoObstacle, Tidy, Grown, Fresh;
      GrownFromSame(rows);
      FreshRefers(rows, options, cs);
      found, tables := cs, [];
      for k := 0 to |cs|
        invariant |found| == |cs| && Books(found) && |tables| == k
        invariant forall j :: 0 <= j < |cs| ==> Refers(rows, options, found[j]) && found[j].(resource := None) == cs[j]
        invariant forall j :: k <= j < |cs| ==> found[j] == cs[j]
        invariant forall j :: 0 <= j < k ==>
                    && Grown(old(rows), tables[j]) && Grown(tables[j], rows)
                    && LookedUp(tables[j], options, found[j])
        invariant lost == old(lost) && failedReleases == old(failedReleases) && Own() == old(Own())
        invariant Grown(old(rows), rows) && clock >= old(clock)
        invariant alone ==> Others() == old(Others()) && rows == old(rows) && daily == old(daily)
        invariant alone ==> pendingStorage == old(pendingStorage)
        invariant alone ==> forall j :: 0 <= j < k ==> LookedUp(rows, options, found[j])
      {
        ghost var before := rows;
        Interleave(found, options, alone);
        GrownOn(tables, before, rows);
        GrownTwice(old(rows), before, rows);
        var stopping := Falters(calm);
        if stopping {
          return found, false, tables;
        }
        var failing := Falters(calm);
        NoObstacleLater(old(rows), options, cs[k], old(clock), clock);
        var resource, fine := GeneratedResourceForCandidate(options, found[k], failing);
        if !fine {
          return found, false, tables;
        }
        BooksWithRow(found, k, resource);
        found := found[k := found[k].(resource := resource)];
        GrownFromSame(rows);
        tables := tables + [rows];
      }
      ok := true;
    }

    lemma BooksWithRow(cs: seq<Candidate>, k: nat, resource: Option<Loaded>)
      requires Books(cs) && k < |cs|
      ensures Books(cs[k := cs[k].(resource := resource)])
    {
      hide Indexed, Carried, Total;
      SameTotals(cs, k, cs[k].(resource := resource));
    }

    /** One round of the reservations, with the check in front of it. */
    method ReserveNext(cs: seq<Candidate>, k: nat, options: Options, alone: bool, calm: bool)
      returns (reserved: seq<Candidate>, ok: bool)
      requires Books(cs) && k < |cs| && options.enforceQuota && Fresh(cs[k].(resource := None))
      requires forall j :: 0 <= j < |cs| ==> Refers(rows, options, cs[j])
      modifies this
      ensures Books(reserved) && |reserved| == |cs| && Grown(old(rows), rows) && clock >= old(clock)
      ensures forall j :: 0 <= j < |cs| ==> Refers(rows, options, reserved[j]) && (j != k ==> reserved[j] == cs[j])
      ensures SameMedia(reserved[k], cs[k]) && reserved[k].resource == cs[k].resource
      ensures if ok then Reserved(reserved[k], options) else reserved == cs
      ensures lost == old(lost) && failedReleases == old(failedReleases) && Own() == old(Own())
      ensures alone ==> Others() == old(Others()) && rows == old(rows)
      ensures alone ==> WithinMore(pendingStorage, daily, old(pendingStorage), old(daily), cs[k].size)
      ensures alone && calm && (forall now :: old(FitsAt(cs[k].size, now))) ==> ok
    {
      hide Books, Refers, Grown, FitsAt, WithinMore;
      reserved := cs;
      Interleave(cs, options, alone);
      NothingMoreOf(pendingStorage, daily, cs[k].size);
      var stopping := Falters(calm);
      if stopping {
        return reserved, false;
      }
      var taken;
      taken, ok := ReserveOne(cs, k, calm);
      if ok {
        RefersAlike(rows, options, cs[k], taken);
        reserved := cs[k := taken];
      }
    }

    /** After a refusal give back what the candidates in front of it hold. */
    method StopReserving(reserved: seq<Candidate>, cs: seq<Candidate>, k: nat, options: Options)
      returns (freed: seq<Candidate>)
      requires Books(reserved) && |reserved| == |cs| && k < |cs|
      requires forall j :: 0 <= j < |cs| ==>
                 && Refers(rows, options, reserved[j]) && SameMedia(reserved[j], cs[j])
                 && reserved[j].resource == cs[j].resource
      requires forall j :: 0 <= j < k ==> Reserved(reserved[j], options)
      requires forall j :: k <= j < |cs| ==> reserved[j] == cs[j] && Fresh(cs[j].(resource := None))
      modifies this`pendingStorage, this`daily, this`lost, this`failedReleases
      ensures Books(freed) && |freed| == |cs|
      ensures forall j :: 0 <= j < |cs| ==>
                && Refers(rows, options, freed[j]) && SameMedia(freed[j], cs[j]) && freed[j].resource == cs[j].resource
                && !freed[j].quotaReserved && !freed[j].dailyReserved
      ensures LostByFailure(lost, failedReleases, old(lost), old(failedReleases))
    {
      hide Books, Refers;
      freed := ReleaseGeneratedCandidateQuotas(reserved, 0, k);
    }

    /** Reserve for every candidate that is not ready; on the first refusal give back what was taken. */
    method ReserveAll(cs: seq<Candidate>, options: Options, alone: bool, calm: bool)
      returns (reserved: seq<Candidate>, ok: bool)
      requires Books(cs) && options.enforceQuota
      requires forall k :: 0 <= k < |cs| ==> Refers(rows, options, cs[k]) && Fresh(cs[k].(resource := None))
      modifies this
      ensures Books(reserved) && |reserved| == |cs|
      ensures forall k :: 0 <= k < |cs| ==> Refers(rows, options, reserved[k]) && SameMedia(reserved[k], cs[k])
      ensures ok ==> forall k :: 0 <= k < |cs| ==> Reserved(reserved[k], options)
      ensures !ok ==> forall k :: 0 <= k < |cs| ==> !reserved[k].quotaReserved && !reserved[k].dailyReserved
      ensures LostByFailure(lost, failedReleases, old(lost), old(failedReleases)) && Own() == old(Own())
      ensures Grown(old(rows), rows)
      ensures alone ==> Others() == old(Others()) && rows == old(rows)
      ensures clock >= old(clock) && forall k :: 0 <= k < |cs| ==> reserved[k].resource == cs[k].resource
      ensures alone && calm && old(RoomFor(cs)) ==> ok
    {
      hide Books, Refers, Reserved, SameMedia, Fresh, Tidy, Grown, Sizes, RoomBeside, WithinMore, FitsAt;
      AllAsThemselves(cs);
      ghost var smooth := alone && calm && RoomBeside(cs, pendingStorage, daily);
      GrownFromSame(rows);
      NothingMore(pendingStorage, daily, cs);
      reserved := cs;
      for k := 0 to |cs|
        invariant |reserved| == |cs| && Books(reserved)
        invariant forall j :: 0 <= j < |cs| ==> Refers(rows, options, reserved[j]) && SameMedia(reserved[j], cs[j])
        invariant forall j :: 0 <= j < k ==> Reserved(reserved[j], options)
        invariant forall j :: k <= j < |cs| ==> reserved[j] == cs[j]
        invariant lost == old(lost) && failedReleases == old(failedReleases) && Own() == old(Own())
        invariant Grown(old(rows), rows)
        invariant alone ==> Others() == old(Others()) && rows == old(rows)
        invariant clock >= old(clock) && forall j :: 0 <= j < |cs| ==> reserved[j].resource == cs[j].resource
        invariant smooth ==> RoomBeside(cs, old(pendingStorage), old(daily))
        invariant smooth ==> WithinMore(pendingStorage, daily, old(pendingStorage), old(daily), Sizes(cs[..k]))
      {
        ghost var before, pending1, daily1 := rows, pendingStorage, daily;
        if smooth {
          FitsNext(cs, k, old(pendingStorage), old(daily));
        }
        var fine;
        reserved, fine := ReserveNext(reserved, k, options, alone, calm);
        GrownTwice(old(rows), before, rows);
        if !fine {
          reserved := StopReserving(reserved, cs, k, options);
          return reserved, false;
        }
        if smooth {
          WithinBoth(pendingStorage, daily, pending1, daily1, cs[k].size,
                     old(pendingStorage), old(daily), Sizes(cs[..k]));
        }
      }
      ok := true;
    }

    /** Take over a pending row nobody has touched lately. */
    method ClaimStaleGeneratedResource(id: nat, updatedBefore: int, failing: bool) returns (claimed: bool)
      requires Tidy() && id < |rows|
      modifies this`rows
      ensures Tidy() && Grown(old(rows), rows)
      ensures forall day: Day :: Charged(day) == old(Charged(day))
      ensures claimed <==> !failing && old(rows)[id].status == Pending && old(rows)[id].updatedAt <= updatedBefore
      ensures rows == if claimed then old(rows)[id := old(rows)[id].(updatedAt := clock)] else old(rows)
    {
      claimed := !failing && rows[id].status == Pending && rows[id].updatedAt <= updatedBefore;
      if claimed {
        UpdateRow(id, rows[id].(updatedAt := clock));
      }
    }

    /** Claim the row of one candidate, if it has a pending one. */
    method ClaimOne(cs: seq<Candidate>, k: nat, options: Options, calm: bool) returns (c: Candidate, won: bool)
      requires Books(cs) && k < |cs| && Reserved(cs[k], options)
      requires forall j :: 0 <= j < |cs| ==> Refers(rows, options, cs[j])
      modifies this`rows
      ensures Grown(old(rows), rows)
      ensures forall j :: 0 <= j < |cs| ==> Refers(rows, options, cs[j])
      ensures !won ==> Books(cs)
      ensures won && cs[k].resource.Some? && cs[k].resource.value.row.status == Pending
              && !options.recoverPendingNow ==>
                cs[k].resource.value.id < |old(rows)|
                && clock - old(rows)[cs[k].resource.value.id].updatedAt >= STALE_AFTER
      ensures won ==> Books(cs[k := c]) && Refers(rows, options, c) && Reserved(c, options) && SameMedia(c, cs[k])
      ensures won ==> (ToBind(c) <==> ToBind(cs[k])) && (c.resource.Some? <==> cs[k].resource.Some?)
      ensures won && c.resource.Some? ==> c.resource.value.id == cs[k].resource.value.id && c.quotaDay == cs[k].quotaDay
      ensures calm && Claimable(old(rows), options, cs[k], clock) ==> won
      ensures won ==> Retouched(old(rows), rows, cs[k], c)
    {
      hide Indexed, Carried, Total;
      c, won := cs[k], true;
      if c.resource.Some? && c.resource.value.row.status == Pending {
        var updatedBefore := if options.recoverPendingNow then clock else clock - STALE_AFTER;
        var failing := Falters(calm);
        won := ClaimStaleGeneratedResource(c.resource.value.id, updatedBefore, failing);
        c := c.(resource := Some(c.resource.value.(row := c.resource.value.row.(updatedAt := clock))));
        SameTotals(cs, k, c);
      } else {
        assert cs[k := c] == cs;
      }
    }

    /** One round of the claims, with the check in front of it. */
    method ClaimNext(cs: seq<Candidate>, days: map<nat, Day>, k: nat, options: Options, alone: bool, calm: bool)
      returns (claimed: seq<Candidate>, noted: map<nat, Day>, ok: bool)
      requires Books(cs) && DistinctPaths(cs) && k < |cs| && DaysFor(days, cs, k)
      requires forall j :: 0 <= j < |cs| ==> Refers(rows, options, cs[j]) && Reserved(cs[j], options)
      modifies this
      ensures Books(claimed) && |claimed| == |cs| && DistinctPaths(claimed)
      ensures forall j :: 0 <= j < |cs| ==> Refers(rows, options, claimed[j]) && Reserved(claimed[j], options)
      ensures SameMedia(claimed[k], cs[k]) && forall j :: 0 <= j < |cs| && j != k ==> claimed[j] == cs[j]
      ensures ok ==> DaysFor(noted, claimed, k + 1)
      ensures lost == old(lost) && failedReleases == old(failedReleases) && Own() == old(Own())
      ensures Grown(old(rows), rows)
      ensures alone ==> Others() == old(Others())
      ensures alone && calm && old(MatchUpTo(rows, options, cs, k, clock)) ==>
                ok && MatchUpTo(rows, options, claimed, k + 1, clock) && SameRow(claimed[k], cs[k])
    {
      hide Books, Refers, Reserved, DistinctPaths, DaysFor, Grown, MatchUpTo, SameRow, SameMedia;
      ghost var smooth, earlier := alone && calm && MatchUpTo(rows, options, cs, k, clock), clock;
      claimed, noted, ok := cs, days, false;
      SameAsItself(cs[k]);
      Interleave(cs, options, alone);
      ghost var before := rows;
      if smooth {
        MatchLater(rows, options, cs, k, earlier, clock);
        ClaimableThere(rows, options, cs, k, clock);
      }
      var stopping := Falters(calm);
      if stopping {
        return;
      }
      var touched;
      touched, ok := ClaimOne(cs, k, options, calm);
      GrownTwice(old(rows), before, rows);
      if ok {
        if smooth {
          MatchClaimed(before, rows, options, cs, k, touched, clock);
        }
        NextDay(rows, options, cs, days, k, touched);
        claimed := cs[k := touched];
        if ToBind(touched) {
          noted := days[touched.resource.value.id := touched.quotaDay];
        }
      }
    }

    /** Claim every pending row, and note which of them need a quota day. */
    method ClaimAll(cs: seq<Candidate>, options: Options, alone: bool, calm: bool)
      returns (claimed: seq<Candidate>, days: map<nat, Day>, ok: bool)
      requires Books(cs) && DistinctPaths(cs)
      requires forall k :: 0 <= k < |cs| ==> Refers(rows, options, cs[k]) && Reserved(cs[k], options)
      modifies this
      ensures Books(claimed) && |claimed| == |cs|
      ensures forall k :: 0 <= k < |cs| ==> Refers(rows, options, claimed[k]) && SameMedia(claimed[k], cs[k])
      ensures ok ==> DaysFor(days, claimed, |cs|) && forall k :: 0 <= k < |cs| ==> Reserved(claimed[k], options)
      ensures !ok ==> forall k :: 0 <= k < |cs| ==> !claimed[k].quotaReserved && !claimed[k].dailyReserved
      ensures LostByFailure(lost, failedReleases, old(lost), old(failedReleases)) && Own() == old(Own())
      ensures Grown(old(rows), rows)
      ensures alone ==> Others() == old(Others())
      ensures alone && calm && old(MatchUpTo(rows, options, cs, 0, clock)) ==>
                && ok && MatchUpTo(rows, options, claimed, |cs|, clock)
                && forall k :: 0 <= k < |cs| ==> SameRow(claimed[k], cs[k])
    {
      hide Books, Refers, DistinctPaths, DaysFor, Tidy, Grown, MatchUpTo;
      GrownFromSame(rows);
      NoDays(cs);
      claimed, days := cs, map[];
      ghost var smooth := alone && calm && MatchUpTo(rows, options, cs, 0, clock);
      for k := 0 to |cs|
        invariant |claimed| == |cs| && Books(claimed)
        invariant forall j :: 0 <= j < |cs| ==>
                    Refers(rows, options, claimed[j]) && SameMedia(claimed[j], cs[j]) && Reserved(claimed[j], options)
        invariant DistinctPaths(claimed) && DaysFor(days, claimed, k)
        invariant lost == old(lost) && failedReleases == old(failedReleases) && Own() == old(Own())
        invariant Grown(old(rows), rows)
        invariant alone ==> Others() == old(Others())
        invariant smooth ==> MatchUpTo(rows, options, claimed, k, clock)
        invariant smooth ==> forall j :: 0 <= j < |cs| ==> SameRow(claimed[j], cs[j])
      {
        ghost var before := rows;
        var going;
        claimed, days, going := ClaimNext(claimed, days, k, options, alone, calm);
        GrownTwice(old(rows), before, rows);
        if !going {
          claimed := ReleaseGeneratedCandidateQuotas(claimed, 0, |cs|);
          return claimed, days, false;
        }
      }
      ok := true;
    }

    /** Write all noted days, each only to a pending row without one, or none at all. */
    method SetClaimedGeneratedResourceQuotaDays(days: map<nat, Day>, calm: bool) returns (ok: bool)
      requires forall id :: id in days ==> id < |rows|
      modifies this`rows
      ensures !ok ==> rows == old(rows)
      ensures calm ==>
                (forall id :: id in days ==> old(rows)[id].status == Pending && old(rows)[id].quotaDay == "") ==> ok
      ensures ok ==> forall id :: id in days ==> old(rows)[id].status == Pending && old(rows)[id].quotaDay == ""
      ensures ok ==> |rows| == |old(rows)| && forall id :: 0 <= id < |rows| ==>
                       rows[id] == if id in days then old(rows)[id].(quotaDay := days[id]) else old(rows)[id]
    {
      var staged, ids := rows, days.Keys;
      while ids != {}
        invariant ids <= days.Keys && |staged| == |rows| && rows == old(rows)
        invariant forall id :: id in days && id !in ids ==> rows[id].status == Pending && rows[id].quotaDay == ""
        invariant forall id :: 0 <= id < |rows| ==>
                    staged[id] == if id in days && id !in ids then rows[id].(quotaDay := days[id]) else rows[id]
        decreases |ids|
      {
        var id :| id in ids;
        ids := ids - {id};
        var failing := Falters(calm);
        if failing || staged[id].status != Pending || staged[id].quotaDay != "" {
          return false;
        }
        staged := staged[id := staged[id].(quotaDay := days[id])];
      }
      rows := staged;
      ok := true;
    }

    /** Bind the days, and hand the bytes of each bound row over from the call to the row. */
    method BindDays(cs: seq<Candidate>, options: Options, days: map<nat, Day>, calm: bool)
      returns (bound: seq<Candidate>, ok: bool)
      requires Books(cs) && DistinctPaths(cs) && DaysFor(days, cs, |cs|)
      requires forall k :: 0 <= k < |cs| ==> Refers(rows, options, cs[k]) && Reserved(cs[k], options)
      modifies this`rows
      ensures Books(bound) && (ok ==> Grown(old(rows), rows))
      ensures !ok ==> bound == cs && rows == old(rows)
      ensures ok ==> bound == Unmarked(cs, |cs|)
      ensures ok ==> forall k :: 0 <= k < |cs| ==> Refers(rows, options, bound[k])
      ensures calm && old(MatchUpTo(rows, options, cs, |cs|, clock)) ==>
                && ok && MatchUpTo(rows, options, bound, |cs|, clock)
                && forall k :: 0 <= k < |cs| ==> SameRow(bound[k], cs[k])
    {
      hide Carried, Total, Refers, Reserved, Indexed, DistinctPaths, Later, Unmarked, ToBind, BoundOf;
      hide MatchUpTo, SameRow;
      bound := cs;
      KnownIds(rows, options, cs, days);
      if MatchUpTo(rows, options, cs, |cs|, clock) {
        UnboundDays(rows, options, cs, days, clock);
      }
      ok := SetClaimedGeneratedResourceQuotaDays(days, calm);
      if !ok {
        return;
      }
      bound := MarkBound(cs);
      BoundRows(old(rows), rows, options, cs, days);
      BoundRefers(old(rows), rows, Unpaid(), options, cs, days);
      forall day: Day ensures Charged(day) == Total(bound, OnDay(day)) {
        HandedOver(old(rows), Unpaid(), options, cs, |cs|, day);
        assert old(Charged(day)) == Total(cs, OnDay(day));
      }
      UnmarkedInProcess(cs, |cs|);
      if MatchUpTo(old(rows), options, cs, |cs|, clock) {
        MatchBound(old(rows), rows, options, cs, days, clock);
      }
    }

    /** Insert a pending row unless the index on task outputs forbids it. */
    method CreateResource(row: Resource, failing: bool) returns (ok: bool)
      requires Tidy()
      modifies this`rows
      ensures Tidy() && rows == if ok then old(rows) + [row] else old(rows)
      ensures ok <==>
              !failing && forall i :: 0 <= i < |old(rows)| && Usable(old(rows)[i]) ==>
                            !SameOutput(old(rows)[i], row)
      ensures forall day: Day ::
                Charged(day) == old(Charged(day)) - if ok then BearsBytes(row, |old(rows)|, Unpaid(), day) else 0
    {
      ok := !failing;
      for i := 0 to |rows|
        invariant ok <==> !failing && forall j :: 0 <= j < i && Usable(rows[j]) ==> !SameOutput(rows[j], row)
      {
        if Usable(rows[i]) && SameOutput(rows[i], row) {
          ok := false;
        }
      }
      if ok {
        forall day: Day
          ensures Carried(rows + [row], Unpaid(), day)
               == Carried(rows, Unpaid(), day) + BearsBytes(row, |rows|, Unpaid(), day)
        {
          CarriedAppended(rows, Unpaid(), row, day);
        }
        rows := rows + [row];
      }
    }

    /** The pending row of new media, and what other calls do before its body is written. */
    method StartStore(c: Candidate, options: Options, alone: bool, calm: bool)
      returns (id: nat, row: Resource, ok: bool)
      requires Tidy() && (options.source.Some? ==> c.quotaDay != "")
      modifies this
      ensures Tidy() && Grown(old(rows), rows)
      ensures pendingStorage - othersPending == old(pendingStorage - othersPending)
      ensures lost == old(lost) && failedReleases == old(failedReleases) && Own() == old(Own())
      ensures alone ==> Others() == old(Others())
      ensures row == Resource(options.source, c.path, c.sha, c.size, c.mime, Pending, c.quotaDay, row.updatedAt)
      ensures forall day: Day ::
                Charged(day)
                == old(Charged(day)) - if ok && options.source.Some? && day == c.quotaDay then c.size else 0
      ensures ok ==> id == |old(rows)| < |rows| && Later(row, rows[id]) && id !in Unpaid()
      ensures ok ==> if options.source.Some? then Usable(rows[id]) else rows[id] == row
      ensures ok && alone ==> rows == old(rows) + [row]
      ensures calm && NoRow(old(rows), options, c.path) ==> ok
    {
      hide Indexed, Carried;
      id, row, ok := |rows|, Resource(options.source, c.path, c.sha, c.size, c.mime, Pending, c.quotaDay, clock), false;
      var failing := Falters(calm);
      if failing {
        return;
      }
      failing := Falters(calm);
      ok := CreateResource(row, failing);
      if ok {
        OtherCalls(alone, Some(id));
      }
    }

    /** Store new media: a pending row, the body, the final state. */
    method StoreResource(c: Candidate, options: Options, alone: bool, calm: bool)
      returns (stored: Option<Loaded>, ok: bool)
      requires Tidy() && (options.source.Some? ==> c.quotaDay != "")
      modifies this
      ensures Tidy() && Grown(old(rows), rows) && (ok ==> stored.Some?)
      ensures pendingStorage - othersPending == old(pendingStorage - othersPending)
      ensures lost == old(lost) && failedReleases == old(failedReleases) && given == old(given)
      ensures failedStores == old(failedStores) + if stored.Some? && !ok then {stored.value.id} else {}
      ensures alone ==> Others() == old(Others())
      ensures stored.None? ==> forall day: Day :: Charged(day) == old(Charged(day))
      ensures stored.Some? ==> Stored(stored.value, c, options, ok) && stored.value.id >= |old(rows)|
      ensures stored.Some? ==> forall day: Day ::
                Charged(day)
                == old(Charged(day)) - if (ok || options.source.Some?) && day == c.quotaDay then c.size else 0
      ensures alone && stored.Some? && !ok && options.source.Some? ==> rows[stored.value.id].status == Pending
      ensures alone && calm && NoRow(old(rows), options, c.path) ==>
                ok && stored.value.id == |old(rows)| && rows == old(rows) + [stored.value.row]
    {
      hide Indexed, Carried, Charged, Tidy;
      var id, row, created := StartStore(c, options, alone, calm);
      if !created {
        return None, false;
      }
      var unwritten := Falters(calm);
      var unsaved := Falters(calm);
      row, ok := FinishStore(id, row, !unwritten, !unsaved);
      stored := Some(Loaded(id, row));
    }

    /** The body and the final state of a row just created. */
    method FinishStore(id: nat, created: Resource, written: bool, saved: bool) returns (row: Resource, ok: bool)
      requires Tidy() && id < |rows| && Later(created, rows[id]) && created.status == Pending
      requires if created.source.Some? then created.quotaDay != "" && Usable(rows[id]) else rows[id] == created
      modifies this`rows, this`failedStores
      ensures Tidy() && |rows| == |old(rows)| && Grown(old(rows), rows)
      ensures row == created.(updatedAt := row.updatedAt, status := row.status)
      ensures row.updatedAt == clock && (ok ==> rows == old(rows)[id := row] && row.status == Ready)
      ensures ok == (written && saved) && failedStores == old(failedStores) + if ok then {} else {id}
      ensures !ok ==> rows[id] == if saved then row else old(rows)[id]
      ensures row.status == if written then Ready else if created.source.Some? then Pending else Failed
      ensures !ok && created.source.Some? ==> Usable(row) && (rows[id] == old(rows)[id] || row.status == Pending)
      ensures !ok && created.source.None? ==> rows[id].status != Ready
      ensures forall day: Day ::
                Charged(day) == old(Charged(day))
                  - if ok && created.source.None? && id !in Unpaid() && day == created.quotaDay then created.size else 0
    {
      hide Indexed, Carried;
      row := created.(updatedAt := clock);
      if !written {
        row := row.(status := if created.source.Some? then Pending else Failed);
      } else {
        row := row.(status := Ready);
      }
      if saved {
        UpdateRow(id, row);
      }
      ok := written && saved;
      if !ok {
        failedStores := failedStores + {id};
      }
    }

    /** The row a store call left behind, and its copy. */
    ghost predicate Stored(stored: Loaded, c: Candidate, options: Options, ok: bool)
      reads this
    {
      && stored.id < |rows| && stored.id !in Unpaid()
      && var row := rows[stored.id];
      && row.source == options.source && row.path == c.path && row.size == c.size
      && (options.source.Some? ==> row.quotaDay == c.quotaDay && Usable(row) && Usable(stored.row))
      && (ok ==> Done(c.(resource := Some(stored))))
    }

    /** Write the body of a claimed pending row again. */
    method WriteClaimedPendingResource(c: Candidate, options: Options, written: bool, saved: bool)
      returns (persisted: Option<Loaded>)
      requires Tidy() && Refers(rows, options, c) && c.resource.Some? && c.resource.value.row.status == Pending
      requires c.resource.value.row.quotaDay != ""
      modifies this`rows
      ensures Tidy() && Grown(old(rows), rows) && forall day: Day :: Charged(day) == old(Charged(day))
      ensures persisted.Some? == (written && saved)
      ensures persisted.Some? ==>
                persisted.value.id == c.resource.value.id
                && rows == old(rows)[c.resource.value.id := persisted.value.row]
      ensures persisted.Some? ==> Done(c.(resource := persisted)) && Refers(rows, options, c.(resource := persisted))
    {
      hide Indexed, Carried;
      var id, row := c.resource.value.id, c.resource.value.row.(updatedAt := clock);
      if !written {
        if saved {
          UpdateRow(id, row);
        }
        return None;
      }
      row := row.(status := Ready);
      if !saved {
        return None;
      }
      UpdateRow(id, row);
      return Some(Loaded(id, row));
    }

    /** Finish a candidate whose pending row was claimed. */
    method RecoverOne(cs: seq<Candidate>, k: nat, options: Options, calm: bool) returns (c: Candidate, ok: bool)
      requires Books(cs) && k < |cs| && Refers(rows, options, cs[k]) && Writable(cs[k], options)
      requires cs[k].resource.Some? && cs[k].resource.value.row.status == Pending
      modifies this`rows, this`pendingStorage
      ensures Books(cs[k := c]) && Grown(old(rows), rows)
      ensures SameMedia(c, cs[k]) && !c.quotaReserved && !c.dailyReserved && (ok ==> Done(c))
      ensures c.resource.Some? && c.resource.value.id == cs[k].resource.value.id
      ensures calm ==> ok
      ensures ok ==> rows == old(rows)[c.resource.value.id := c.resource.value.row]
    {
      hide Carried, Total, Indexed;
      var unwritten := Falters(calm);
      var unsaved := Falters(calm);
      var persisted := WriteClaimedPendingResource(cs[k], options, !unwritten, !unsaved);
      CommitOne(cs, k);
      c := Released(cs[k]);
      ok := persisted.Some?;
      if ok {
        SameTotals(cs[k := c], k, c.(resource := persisted));
        assert cs[k := c][k := c.(resource := persisted)] == cs[k := c.(resource := persisted)];
        c := c.(resource := persisted);
      }
    }

    /**
     * Store a candidate without a row; a ready row found after a failed store stands in for it.  The day of a
     * surviving row is given back exactly if that row is the one whose store has just failed.
     */
    method StoreOne(cs: seq<Candidate>, k: nat, options: Options, alone: bool, calm: bool)
      returns (c: Candidate, ok: bool, ghost back: set<nat>)
      requires Books(cs) && k < |cs| && Writable(cs[k], options) && cs[k].resource.None?
      requires options.source.Some? ==> options.enforceQuota
      modifies this
      ensures Books(cs[k := c]) && Grown(old(rows), rows)
      ensures SameMedia(c, cs[k]) && !c.quotaReserved && !c.dailyReserved && (if ok then Done(c) else c.resource.None?)
      ensures LostByFailure(lost, failedReleases, old(lost), old(failedReleases))
      ensures BackExactly(c, ok, back, Own(), old(Own()), |old(rows)|, |rows|)
      ensures alone ==> Others() == old(Others()) && back == {}
      ensures alone && calm && NoRow(old(rows), options, cs[k].path) ==>
                && ok && c.resource.Some? && c.resource.value.id == |old(rows)|
                && rows == old(rows) + [c.resource.value.row]
    {
      hide Carried, Total, Indexed, Charged, Tidy, Later, Grown;
      FailedAreRows();
      c := cs[k];
      var stored, storedNow := StoreResource(c, options, alone, calm);
      assert HalfBooks(cs, k, storedNow || (stored.Some? && options.source.Some?));
      var raced := None;
      ghost var between := rows;
      if !storedNow {
        raced := RacedResource(c, options, stored, alone);
        GrownTwice(old(rows), between, rows);
      }
      back := if raced.Some? && stored.Some? then {raced.value.id} else {};
      assert HalfBooks(cs, k, storedNow || (raced.None? && stored.Some? && options.source.Some?));
      var failing: bool := *;
      c, ok := SettleStore(cs, k, options, stored, storedNow, raced, failing);
    }

    /** The quota of a candidate after its store, by what was stored, what failed and what stands in. */
    method SettleStore(cs: seq<Candidate>, k: nat, options: Options, stored: Option<Loaded>, storedNow: bool,
                       raced: Option<Loaded>, failing: bool) returns (c: Candidate, ok: bool)
      requires k < |cs| && Writable(cs[k], options) && cs[k].resource.None?
      requires options.source.Some? ==> options.enforceQuota
      requires HalfBooks(cs, k, storedNow || (raced.None? && stored.Some? && options.source.Some?))
      requires stored.Some? && options.source.Some? ==> Usable(stored.value.row)
      requires storedNow ==> stored.Some? && raced.None? && Done(cs[k].(resource := stored))
      requires raced.Some? ==> options.source.Some? && Done(cs[k].(resource := raced))
      modifies this`pendingStorage, this`daily, this`lost, this`failedReleases
      ensures Books(cs[k := c]) && LostByFailure(lost, failedReleases, old(lost), old(failedReleases))
      ensures ok == (storedNow || raced.Some?) && SameMedia(c, cs[k]) && !c.quotaReserved && !c.dailyReserved
      ensures if ok then Done(c) && c.resource == (if storedNow then stored else raced)
                else c.resource == cs[k].resource
      ensures !failing ==> failedReleases == old(failedReleases)
      ensures !failing && raced.Some? ==>
                forall day: Day ::
                  DailyBytes(day)
                  == old(DailyBytes(day)) - if day == cs[k].quotaDay && cs[k].quotaReserved then cs[k].size else 0
    {
      hide Carried, Total, Indexed;
      c, ok := cs[k], storedNow || raced.Some?;
      if c.quotaReserved {
        if storedNow {
          CommitOne(cs, k);
        } else if !ok && stored.Some? && options.source.Some? && Usable(stored.value.row) {
          CommitOne(cs, k);
        } else {
          ReleaseBoth(cs, k, failing);
        }
      } else {
        assert cs[k := Released(c)] == cs;
      }
      c := Released(c);
      if ok {
        var resource := if storedNow then stored else raced;
        SameTotals(cs[k := c], k, c.(resource := resource));
        assert cs[k := c][k := c.(resource := resource)] == cs[k := c.(resource := resource)];
        c := c.(resource := resource);
      }
    }

    /**
     * After a failed store: a ready row of the same output, be it one that this very call created and another one
     * finished.
     */
    method RacedResource(c: Candidate, options: Options, stored: Option<Loaded>, alone: bool)
      returns (raced: Option<Loaded>)
      requires Tidy() && (stored.Some? ==> Stored(stored.value, c, options, false))
      requires options.source.Some? ==> c.quotaDay != ""
      requires alone && stored.Some? && options.source.Some? ==> rows[stored.value.id].status == Pending
      modifies this
      ensures Tidy() && Grown(old(rows), rows)
      ensures pendingStorage - othersPending == old(pendingStorage - othersPending)
      ensures lost == old(lost) && failedReleases == old(failedReleases) && failedStores == old(failedStores)
      ensures given == old(given) + if raced.Some? && stored.Some? then {stored.value.id} else {}
      ensures alone ==> Others() == old(Others()) && (raced.Some? ==> stored.None?)
      ensures raced.Some? ==> options.source.Some? && Done(c.(resource := raced)) && raced.value.id < |rows|
      ensures raced.Some? && stored.Some? ==> raced.value.id == stored.value.id
      ensures forall day: Day ::
                Charged(day)
                == old(Charged(day)) + if raced.Some? && stored.Some? && day == c.quotaDay then c.size else 0
    {
      hide Carried, Indexed;
      OtherCalls(alone, if stored.Some? then Some(stored.value.id) else None);
      var found: bool, failing: bool := *, *;
      raced, found := GeneratedResourceForCandidate(options, c, failing);
      if !found || raced.None? || raced.value.row.status != Ready {
        return None;
      }
      if stored.Some? {
        OneRow(rows, raced.value.id, stored.value.id);
        GiveBack(stored.value.id);
      }
    }

    /** From here on a surviving row is no longer counted as paid for. */
    ghost method GiveBack(id: nat)
      requires Tidy() && id < |rows| && id !in Unpaid() && rows[id].quotaDay != ""
      modifies this`given
      ensures Tidy() && given == old(given) + {id}
      ensures forall day: Day :: Charged(day) == old(Charged(day)) + if Bears(rows[id], day) then rows[id].size else 0
    {
      forall day: Day
        ensures Carried(rows, Unpaid() + {id}, day)
                  == Carried(rows, Unpaid(), day) - BearsBytes(rows[id], id, Unpaid(), day)
      {
        CarriedUnpaid(rows, Unpaid(), id, day);
      }
      assert given + {id} + othersGiven == Unpaid() + {id};
      given := given + {id};
    }

    /**
     * The run that leaves a row unpaid, for every reserved candidate: its row is created, the body cannot be written,
     * another call finds and claims the row and completes it, and only then does this call look again: it gives the
     * day's bytes back although the ready row carries the day.
     */
    method AnotherFinishesTheRow(c: Candidate, options: Options) returns (done: Candidate, id: nat)
      requires Books([c]) && c.resource.None? && Sane(c) && c.dailyReserved
      requires options.source.Some? && options.enforceQuota && options.recoverPendingNow
      requires forall i :: 0 <= i < |rows| && Usable(rows[i]) && rows[i].path == c.path ==>
                 rows[i].source != options.source
      modifies this
      ensures Books([done]) && Done(done) && done.resource.value.id == id == |old(rows)| < |rows|
      ensures rows[id].status == Ready && Bears(rows[id], c.quotaDay) && rows[id].size == c.size
      ensures DailyBytes(c.quotaDay) == old(DailyBytes(c.quotaDay)) - c.size
      ensures given == old(given) + {id} && Others() == old(Others()) && failedReleases == old(failedReleases)
    {
      hide Carried, Total, Indexed;
      var copy;
      id, copy := CreateAndFail(c, options);
      CompleteForAnother(c, options, id);
      done := LookAgain(c, options, Loaded(id, copy));
    }

    /** The look-up after the failed store finds the row, by now ready, and what the call holds is given back. */
    method LookAgain(c: Candidate, options: Options, stored: Loaded) returns (done: Candidate)
      requires c.resource.None? && Writable(c, options) && c.dailyReserved && HalfBooks([c], 0, true)
      requires options.source.Some? && options.enforceQuota && options.recoverPendingNow
      requires stored.id < |rows| && stored.id !in Unpaid() && Usable(stored.row)
      requires rows[stored.id]
                 == Resource(options.source, c.path, c.sha, c.size, c.mime, Ready, c.quotaDay,
                             rows[stored.id].updatedAt)
      modifies this`pendingStorage, this`daily, this`lost, this`failedReleases, this`given
      ensures Books([done]) && Done(done) && done.resource.value.id == stored.id
      ensures DailyBytes(c.quotaDay) == old(DailyBytes(c.quotaDay)) - c.size
      ensures given == old(given) + {stored.id} && failedReleases == old(failedReleases)
    {
      hide Carried, Total, Indexed;
      LookedUpRow(rows, stored.id, options, c, clock);
      var raced, again := GeneratedResourceForCandidate(options, c, false);
      GiveBack(stored.id);
      assert [c][0 := c] == [c];
      var ok;
      done, ok := SettleStore([c], 0, options, Some(stored), false, raced, false);
      assert [c][0 := done] == [done];
    }

    /** The row is created, its body is not written, and it is saved as still pending. */
    method CreateAndFail(c: Candidate, options: Options) returns (id: nat, copy: Resource)
      requires Tidy() && options.source.Some? && c.quotaDay != ""
      requires forall i :: 0 <= i < |rows| && Usable(rows[i]) && rows[i].path == c.path ==>
                 rows[i].source != options.source
      modifies this`rows, this`failedStores
      ensures Tidy() && id == |old(rows)| && |rows| == id + 1 && rows[id] == copy && id !in Unpaid()
      ensures copy == Resource(options.source, c.path, c.sha, c.size, c.mime, Pending, c.quotaDay, clock)
      ensures forall day: Day :: Charged(day) == old(Charged(day)) - if day == c.quotaDay then c.size else 0
    {
      hide Carried, Indexed;
      var row := Resource(options.source, c.path, c.sha, c.size, c.mime, Pending, c.quotaDay, clock);
      var created := CreateResource(row, false);
      id := |rows| - 1;
      var written;
      copy, written := FinishStore(id, row, false, true);
    }

    /** Another call with the same result looks the row up, claims it and writes it to its end. */
    method CompleteForAnother(c: Candidate, options: Options, id: nat)
      requires Tidy() && options.source.Some? && options.recoverPendingNow && c.resource.None? && c.quotaDay != ""
      requires id < |rows|
      requires rows[id]
                 == Resource(options.source, c.path, c.sha, c.size, c.mime, Pending, c.quotaDay, rows[id].updatedAt)
      requires rows[id].updatedAt <= clock
      modifies this`rows
      ensures Tidy() && |rows| == |old(rows)| && forall day: Day :: Charged(day) == old(Charged(day))
      ensures rows[id] == old(rows)[id].(status := Ready, updatedAt := rows[id].updatedAt)
    {
      hide Carried, Indexed;
      LookedUpRow(rows, id, options, c, clock);
      var found, seen := GeneratedResourceForCandidate(options, c, false);
      var claimed := ClaimStaleGeneratedResource(id, clock, false);
      var persisted := WriteClaimedPendingResource(c.(resource := found), options, true, true);
    }

    /** The reservation of one candidate. */
    method ReserveOne(cs: seq<Candidate>, k: nat, calm: bool) returns (c: Candidate, ok: bool)
      requires Books(cs) && k < |cs| && Fresh(cs[k].(resource := None))
      modifies this`pendingStorage, this`daily
      ensures !ok ==> Books(cs)
      ensures ok ==> Books(cs[k := c]) && SameMedia(c, cs[k]) && c.resource == cs[k].resource && Sane(c)
      ensures ok ==> if c.resource.Some? && c.resource.value.row.status == Ready then c == cs[k]
                     else
                       && c.quotaReserved
                       && (c.dailyReserved <==> !(c.resource.Some? && c.resource.value.row.quotaDay != ""))
      ensures WithinMore(pendingStorage, daily, old(pendingStorage), old(daily), cs[k].size)
      ensures calm && old(Fits(cs[k].size)) ==> ok
    {
      hide Carried, Total, Indexed;
      c, ok := cs[k], true;
      if c.resource.Some? && c.resource.value.row.status == Ready {
        assert cs[k := c] == cs;
        return;
      }
      var day;
      if c.resource.Some? && c.resource.value.row.quotaDay != "" {
        day := c.resource.value.row.quotaDay;
        ok := ReserveRecoveredStorage(c.size, calm);
      } else {
        day, ok := ReserveGeneratedResourceQuota(c.size, calm);
      }
      if ok {
        var full := !(c.resource.Some? && c.resource.value.row.quotaDay != "");
        c := c.(quotaDay := day, quotaReserved := true, dailyReserved := full);
        forall account ensures Total(cs[k := c], account) == Total(cs, account) + Holds(c, account) {
          TotalUpdated(cs, k, c, account);
        }
      }
    }

    /** After a failure drop what the candidates behind it hold. */
    method StopWriting(done: seq<Candidate>, cs: seq<Candidate>, k: nat, options: Options,
                       ghost back: set<nat>, ghost own0: (set<nat>, set<nat>), ghost rows0: nat)
      returns (freed: seq<Candidate>)
      requires Books(done) && |done| == |cs| && k < |cs| && GivenExactly(done, false, back, Own(), own0, rows0)
      requires forall j :: 0 <= j <= k ==>
                 SameMedia(done[j], cs[j]) && !done[j].quotaReserved && !done[j].dailyReserved
      requires forall j :: k < j < |cs| ==> done[j] == cs[j] && Writable(cs[j], options)
      modifies this`pendingStorage, this`daily, this`lost, this`failedReleases
      ensures Books(freed) && |freed| == |cs| && GivenExactly(freed, false, back, Own(), own0, rows0)
      ensures forall j :: 0 <= j < |cs| ==>
                SameMedia(freed[j], cs[j]) && !freed[j].quotaReserved && !freed[j].dailyReserved
      ensures LostByFailure(lost, failedReleases, old(lost), old(failedReleases))
    {
      hide Books, GivenExactly;
      freed := ReleaseGeneratedCandidateQuotas(done, k + 1, |cs|);
      SameResources(done, freed, false, back, Own(), own0, rows0);
    }

    /** One round of the writing, with what it adds to the rows given back and written. */
    method WriteNext(done: seq<Candidate>, cs: seq<Candidate>, k: nat, options: Options, alone: bool, calm: bool,
                     ghost back: set<nat>, ghost own0: (set<nat>, set<nat>), ghost rows0: nat)
      returns (next: seq<Candidate>, ok: bool, ghost all: set<nat>)
      requires Books(done) && k < |cs| == |done| && (options.source.Some? ==> options.enforceQuota)
      requires forall j :: k <= j < |cs| ==> done[j] == cs[j] && Refers(rows, options, cs[j])
      requires Writable(cs[k], options) && GivenSoFar(done, k, back, Own(), own0, rows0, |rows|)
      modifies this
      ensures Books(next) && |next| == |cs| && forall j :: 0 <= j < |cs| && j != k ==> next[j] == done[j]
      ensures SameMedia(next[k], cs[k]) && !next[k].quotaReserved && !next[k].dailyReserved && (ok ==> Done(next[k]))
      ensures forall j :: k <= j < |cs| ==> Refers(rows, options, cs[j])
      ensures LostByFailure(lost, failedReleases, old(lost), old(failedReleases)) && Grown(old(rows), rows)
      ensures if ok then GivenSoFar(next, k + 1, all, Own(), own0, rows0, |rows|)
              else GivenExactly(next, false, all, Own(), own0, rows0)
      ensures alone ==> Others() == old(Others()) && (back == {} ==> all == {})
      ensures alone && calm && DistinctPaths(cs) && old(WrittenUpTo(rows, options, done, cs, k)) ==>
                ok && WrittenUpTo(rows, options, next, cs, k + 1)
    {
      hide Books, Refers, Writable, Done, Tidy, GivenSoFar, BackExactly, GivenExactly, Grown, SameMedia, LostByFailure;
      hide DistinctPaths, WrittenUpTo, Matches, Wrote;
      ghost var before := Own();
      FailedAreRows();
      ghost var smooth := alone && calm && DistinctPaths(cs) && WrittenUpTo(rows, options, done, cs, k);
      if smooth {
        StillMatches(rows, options, done, cs, k);
      }
      var c: Candidate;
      ghost var more: set<nat>;
      c, ok, more := WriteOne(done, k, options, alone, calm);
      GrownSize(old(rows), rows);
      GivenNext(done, k, c, ok, back, more, Own(), before, own0, rows0, |old(rows)|, |rows|);
      if smooth {
        WroteOneMore(old(rows), rows, options, done, cs, k, c);
      }
      next := done[k := c];
      all := if ok then back + more else back;
    }

    /** Write the candidates one after the other; on the first failure drop what the rest hold. */
    method WriteAll(cs: seq<Candidate>, options: Options, alone: bool, calm: bool)
      returns (done: seq<Candidate>, ok: bool, ghost back: set<nat>)
      requires Books(cs) && (options.source.Some? ==> options.enforceQuota)
      requires forall k :: 0 <= k < |cs| ==> Refers(rows, options, cs[k]) && Writable(cs[k], options)
      modifies this
      ensures Books(done) && |done| == |cs|
      ensures forall k :: 0 <= k < |cs| ==>
                SameMedia(done[k], cs[k]) && !done[k].quotaReserved && !done[k].dailyReserved
      ensures ok ==> forall k :: 0 <= k < |cs| ==> Done(done[k])
      ensures LostByFailure(lost, failedReleases, old(lost), old(failedReleases)) && Grown(old(rows), rows)
      ensures GivenExactly(done, ok, back, Own(), old(Own()), |old(rows)|)
      ensures alone ==> Others() == old(Others()) && back == {}
      ensures alone && calm && DistinctPaths(cs) && old(MatchUpTo(rows, options, cs, |cs|, clock)) ==>
                ok && WrittenUpTo(rows, options, done, cs, |cs|)
    {
      hide Books, Refers, Writable, Done, Tidy, GivenSoFar, GivenExactly, Grown, SameMedia;
      hide DistinctPaths, MatchUpTo, WrittenUpTo;
      ghost var smooth := alone && calm && DistinctPaths(cs) && MatchUpTo(rows, options, cs, |cs|, clock);
      if smooth {
        NoneWritten(rows, options, cs, clock);
      }
      done, ok, back := cs, true, {};
      GivenAtStart(rows, options, cs, Own());
      GrownFromSame(rows);
      for k := 0 to |cs|
        invariant |done| == |cs| && Books(done) && ok
        invariant forall j :: 0 <= j < k ==>
                    SameMedia(done[j], cs[j]) && !done[j].quotaReserved && !done[j].dailyReserved && Done(done[j])
        invariant forall j :: k <= j < |cs| ==> done[j] == cs[j] && Refers(rows, options, cs[j])
        invariant LostByFailure(lost, failedReleases, old(lost), old(failedReleases)) && Grown(old(rows), rows)
        invariant GivenSoFar(done, k, back, Own(), old(Own()), |old(rows)|, |rows|)
        invariant alone ==> Others() == old(Others()) && back == {}
        invariant smooth ==> WrittenUpTo(rows, options, done, cs, k)
      {
        ghost var table := rows;
        done, ok, back := WriteNext(done, cs, k, options, alone, calm, back, old(Own()), |old(rows)|);
        GrownTwice(old(rows), table, rows);
        if !ok {
          done := StopWriting(done, cs, k, options, back, old(Own()), |old(rows)|);
          return done, false, back;
        }
      }
      GivenAtEnd(done, back, Own(), old(Own()), |old(rows)|, |rows|);
    }

    lemma IndexedRows()
      requires Books([]) || exists cs :: Books(cs)
      ensures Indexed(rows)
    {
    }

    lemma FailedAreRows()
      requires Books([]) || exists cs :: Books(cs)
      ensures forall id :: id in failedStores ==> id < |rows|
    {
    }

    /** One round of the writing loop, with the check in front of it. */
    method WriteOne(cs: seq<Candidate>, k: nat, options: Options, alone: bool, calm: bool)
      returns (c: Candidate, ok: bool, ghost back: set<nat>)
      requires Books(cs) && k < |cs| && (options.source.Some? ==> options.enforceQuota)
      requires forall j :: k <= j < |cs| ==> Refers(rows, options, cs[j])
      requires Writable(cs[k], options)
      modifies this
      ensures Books(cs[k := c]) && SameMedia(c, cs[k]) && !c.quotaReserved && !c.dailyReserved && (ok ==> Done(c))
      ensures forall j :: k <= j < |cs| ==> Refers(rows, options, cs[j])
      ensures LostByFailure(lost, failedReleases, old(lost), old(failedReleases)) && Grown(old(rows), rows)
      ensures BackExactly(c, ok, back, Own(), old(Own()), |old(rows)|, |rows|)
      ensures !ok && c.resource.Some? ==> c.resource.value.id < |old(rows)|
      ensures alone ==> Others() == old(Others()) && back == {}
      ensures alone && calm && Matches(old(rows), options, cs[k]) ==> ok && Wrote(old(rows), rows, cs[k], c)
    {
      hide Carried, Total, Indexed, Charged, Tidy, Later, Grown, Refers, BackExactly, Done, Wrote;
      OtherCalls(alone, None);
      StillRefer(old(rows), rows, options, cs, k);
      ghost var between := rows;
      var stopping := Falters(calm);
      c, ok, back := cs[k], !stopping, {};
      if !ok {
        if c.quotaReserved {
          ReleaseCandidate(cs, k);
        } else {
          assert cs[k := Released(c)] == cs;
        }
        c := Released(c);
        NothingBack(options, c, ok, Own(), old(rows), rows);
      } else if c.resource.Some? && c.resource.value.row.status == Pending {
        c, ok := RecoverOne(cs, k, options, calm);
        GrownTwice(old(rows), between, rows);
        StillRefer(between, rows, options, cs, k);
        NothingBack(options, c, ok, Own(), old(rows), rows);
        if ok {
          WroteRecovered(between, rows, options, cs[k], c);
        }
      } else if c.resource.None? {
        c, ok, back := StoreOne(cs, k, options, alone, calm);
        GrownTwice(old(rows), between, rows);
        StillRefer(between, rows, options, cs, k);
        if ok && c.resource.Some? && c.resource.value.id == |between| && rows == between + [c.resource.value.row] {
          WroteStored(between, rows, cs[k], c);
        }
        BackSince(c, ok, back, Own(), old(Own()), old(rows), between, |rows|);
      } else {
        assert cs[k := c] == cs;
        NothingBack(options, c, ok, Own(), old(rows), rows);
        ReadyIsDone(rows, options, c);
        WroteNothing(rows, options, c);
      }
    }

    /** Nothing is held by this call. */
    ghost predicate Settled()
      reads this
    {
      pendingStorage == othersPending && forall day: Day :: Charged(day) == 0
    }

    lemma StartBooks(cs: seq<Candidate>)
      requires Books([]) && forall k :: 0 <= k < |cs| ==> Fresh(cs[k])
      ensures Books(cs) && Settled()
    {
      forall account ensures Total(cs, account) == 0 {
        NothingHeld(cs, account);
      }
    }

    lemma EndBooks(cs: seq<Candidate>)
      requires Books(cs) && forall k :: 0 <= k < |cs| ==> !cs[k].quotaReserved && !cs[k].dailyReserved
      ensures Books([]) && Settled()
    {
      forall account ensures Total(cs, account) == 0 {
        NothingHeld(cs, account);
      }
    }

    /** Bind the noted days to their rows, then write. */
    method BindAndWrite(cs: seq<Candidate>, options: Options, days: map<nat, Day>, alone: bool, calm: bool)
      returns (done: seq<Candidate>, ok: bool, ghost back: set<nat>)
      requires Books(cs) && DistinctPaths(cs) && DaysFor(days, cs, |cs|)
      requires options.source.Some? ==> options.enforceQuota
      requires forall k :: 0 <= k < |cs| ==> Refers(rows, options, cs[k]) && Reserved(cs[k], options)
      modifies this
      ensures Books(done) && |done| == |cs|
      ensures forall k :: 0 <= k < |cs| ==>
                SameMedia(done[k], cs[k]) && !done[k].quotaReserved && !done[k].dailyReserved
      ensures ok ==> forall k :: 0 <= k < |cs| ==> Done(done[k])
      ensures LostByFailure(lost, failedReleases, old(lost), old(failedReleases)) && Grown(old(rows), rows)
      ensures GivenExactly(done, ok, back, Own(), old(Own()), |old(rows)|)
      ensures alone ==> Others() == old(Others()) && back == {}
      ensures alone && calm && old(MatchUpTo(rows, options, cs, |cs|, clock)) ==>
                ok && WrittenUpTo(rows, options, done, cs, |cs|)
    {
      hide Books, Refers, Done, Tidy, DistinctPaths, DaysFor, GivenExactly, MatchUpTo, WrittenUpTo, SameRow;
      ghost var smooth, earlier := alone && calm && MatchUpTo(rows, options, cs, |cs|, clock), clock;
      back := {};
      Interleave(cs, options, alone);
      if smooth {
        MatchLater(rows, options, cs, |cs|, earlier, clock);
      }
      done, ok := BindDays(cs, options, days, calm);
      if !ok {
        done := ReleaseGeneratedCandidateQuotas(done, 0, |cs|);
        NothingGiven(done, ok, Own(), |old(rows)|);
        return done, false, {};
      }
      WritableWhenBound(cs, options);
      ghost var bound := done;
      UnmarkedMedia(cs);
      SamePaths(cs, bound);
      ghost var rows0 := |rows|;
      done, ok, back := WriteAll(done, options, alone, calm);
      if smooth {
        WrittenForBoth(rows, options, done, bound, cs);
      }
      GivenSince(done, ok, back, Own(), old(Own()), |old(rows)|, rows0);
    }

    /** Look all rows up and make the reservations. */
    method FindAndReserve(cs: seq<Candidate>, options: Options, alone: bool, calm: bool)
      returns (reserved: seq<Candidate>, ok: bool)
      requires Books(cs) && (options.source.Some? ==> options.enforceQuota)
      requires forall k :: 0 <= k < |cs| ==> Fresh(cs[k])
      modifies this
      ensures Books(reserved) && |reserved| == |cs|
      ensures forall k :: 0 <= k < |cs| ==> Refers(rows, options, reserved[k]) && SameMedia(reserved[k], cs[k])
      ensures ok ==> forall k :: 0 <= k < |cs| ==> Reserved(reserved[k], options)
      ensures !ok ==> forall k :: 0 <= k < |cs| ==> !reserved[k].quotaReserved && !reserved[k].dailyReserved
      ensures LostByFailure(lost, failedReleases, old(lost), old(failedReleases)) && Own() == old(Own())
      ensures Grown(old(rows), rows)
      ensures alone ==> Others() == old(Others())
      ensures alone && calm && old(Unhindered(cs, options)) ==>
                && ok && MatchUpTo(rows, options, reserved, 0, clock)
                && forall k :: 0 <= k < |cs| ==> LookedUp(old(rows), options, reserved[k])
    {
      hide Books, Refers, Reserved, Tidy, LookedUp, MatchUpTo, NothingInTheWay, Grown, Sizes;
      ghost var tables;
      reserved, ok, tables := LookUpAll(cs, options, alone, calm);
      ghost var found, table := reserved, rows;
      SameSizes(cs, found);
      if ok && options.enforceQuota {
        reserved, ok := ReserveAll(reserved, options, alone, calm);
        GrownTwice(old(rows), table, rows);
      } else if ok {
        NothingReserved(rows, reserved, options);
      }
      if ok && alone {
        SameLookUps(rows, options, found, reserved);
        if NothingInTheWay(rows, options, cs, old(clock)) {
          FoundMatches(rows, options, cs, reserved, old(clock), clock);
        }
      }
    }

    /** Claim the rows that are to be recovered, bind their days and write. */
    method ClaimAndWrite(cs: seq<Candidate>, options: Options, alone: bool, calm: bool)
      returns (done: seq<Candidate>, ok: bool, ghost back: set<nat>)
      requires Books(cs) && DistinctPaths(cs) && (options.source.Some? ==> options.enforceQuota)
      requires forall k :: 0 <= k < |cs| ==> Refers(rows, options, cs[k]) && Reserved(cs[k], options)
      modifies this
      ensures Books(done) && |done| == |cs|
      ensures forall k :: 0 <= k < |cs| ==>
                SameMedia(done[k], cs[k]) && !done[k].quotaReserved && !done[k].dailyReserved
      ensures ok ==> forall k :: 0 <= k < |cs| ==> Done(done[k])
      ensures LostByFailure(lost, failedReleases, old(lost), old(failedReleases)) && Grown(old(rows), rows)
      ensures GivenExactly(done, ok, back, Own(), old(Own()), |old(rows)|)
      ensures alone ==> Others() == old(Others()) && back == {}
      ensures alone && calm && old(MatchUpTo(rows, options, cs, 0, clock)) ==>
                ok && WrittenUpTo(rows, options, done, cs, |cs|)
    {
      hide Books, Refers, Reserved, Done, Tidy, DistinctPaths, DaysFor, GivenExactly, MatchUpTo, WrittenUpTo;
      hide SameRow, Grown;
      ghost var smooth := alone && calm && MatchUpTo(rows, options, cs, 0, clock);
      back := {};
      var days;
      done, days, ok := ClaimAll(cs, options, alone, calm);
      SamePaths(cs, done);
      ghost var claimed, table := done, rows;
      GrownSize(old(rows), rows);
      if !ok {
        NothingGiven(done, ok, Own(), |old(rows)|);
        return;
      }
      done, ok, back := BindAndWrite(done, options, days, alone, calm);
      GrownTwice(old(rows), table, rows);
      GivenSince(done, ok, back, Own(), old(Own()), |old(rows)|, |table|);
      if smooth {
        WrittenForBoth(rows, options, done, claimed, cs);
      }
    }

    /**
     * Persist the media of one result.  On every exit nothing is held any more: each day is charged for what
     * surviving rows carry, for what other calls hold, and for releases whose write failed.  The day of a surviving
     * row is given back exactly if its store failed here after the row was created and it was then found ready;
     * undisturbed that never happens.  Left alone, with no failing access, room for all files and no row in the way,
     * it succeeds, and completes the rows that an earlier run left behind.
     */
    method PersistGeneratedMedia(cs: seq<Candidate>, options: Options, alone: bool, calm: bool)
      returns (done: seq<Candidate>, ok: bool, ghost back: set<nat>)
      requires Books([]) && DistinctPaths(cs) && (options.source.Some? ==> options.enforceQuota)
      requires forall k :: 0 <= k < |cs| ==> Fresh(cs[k])
      modifies this
      ensures Books([]) && Grown(old(rows), rows)
      ensures |done| == |cs| && forall k :: 0 <= k < |cs| ==> SameMedia(done[k], cs[k])
      ensures ok ==> forall k :: 0 <= k < |cs| ==> Done(done[k])
      ensures LostByFailure(lost, failedReleases, old(lost), old(failedReleases))
      ensures GivenExactly(done, ok, back, Own(), old(Own()), |old(rows)|)
      ensures alone ==> Others() == old(Others()) && back == {} && pendingStorage == old(pendingStorage)
      ensures alone && failedReleases == old(failedReleases) ==> forall day: Day ::
                DailyBytes(day) - Carried(rows, Unpaid(), day) == old(DailyBytes(day) - Carried(rows, Unpaid(), day))
      ensures alone && calm && old(Unhindered(cs, options)) ==> ok && RowsCompleted(old(rows), rows, options, done)
    {
      hide Books, Refers, Reserved, Done, Tidy, DistinctPaths, Carried, GivenExactly, LookedUp, MatchUpTo, WrittenUpTo;
      hide Unhindered, RowsCompleted, Grown;
      StartBooks(cs);
      IndexedRows();
      assert old(Settled());
      back := {};
      done, ok := FindAndReserve(cs, options, alone, calm);
      SamePaths(cs, done);
      ghost var reserved, table := done, rows;
      GrownSize(old(rows), rows);
      if ok {
        done, ok, back := ClaimAndWrite(done, options, alone, calm);
        GrownTwice(old(rows), table, rows);
        GivenSince(done, ok, back, Own(), old(Own()), |old(rows)|, |table|);
        if WrittenUpTo(rows, options, done, reserved, |cs|)
           && forall k :: 0 <= k < |cs| ==> LookedUp(old(rows), options, reserved[k]) {
          CompletedAll(old(rows), rows, options, done, reserved);
        }
      } else {
        NothingGiven(done, ok, Own(), |old(rows)|);
      }
      EndBooks(done);
      forall day: Day | alone && failedReleases == old(failedReleases)
        ensures DailyBytes(day) - Carried(rows, Unpaid(), day) == old(DailyBytes(day) - Carried(rows, Unpaid(), day)) {
        assert Charged(day) == 0 && old(Charged(day)) == 0;
      }
    }
  }

  // ---------------------------------------------------------------- rows whose day was given back

  /** The rows one candidate gave back, `own` being the failed stores and the rows given back so far. */
  ghost predicate BackExactly(c: Candidate, ok: bool,
                              back: set<nat>, own: (set<nat>, set<nat>), own0: (set<nat>, set<nat>),
                              rows0: nat, rows: nat) {
    && own.1 == own0.1 + back && own0.0 <= own.0
    && (forall id :: id in own.0 - own0.0 ==> id >= rows0)
    && (c.resource.Some? ==> c.resource.value.id < rows)
    && (ok ==> own.0 == own0.0 + back && (back != {} ==> Done(c)))
    && (if ok && c.resource.Some? && c.resource.value.id in own.0 - own0.0 then back == {c.resource.value.id}
        else back == {})
  }

  /** The row stands in, ready, for the media of a candidate. */
  ghost predicate StandsIn(done: seq<Candidate>, id: nat) {
    exists k :: 0 <= k < |done| && done[k].resource.Some? && done[k].resource.value.id == id
  }

  /** The rows given back are exactly those whose store failed here and that nevertheless stand in for a candidate. */
  ghost predicate GivenExactly(done: seq<Candidate>, ok: bool,
                               back: set<nat>, own: (set<nat>, set<nat>), own0: (set<nat>, set<nat>),
                               rows0: nat) {
    && own.1 == own0.1 + back && own0.0 <= own.0
    && (forall id :: id in own.0 - own0.0 ==> id >= rows0)
    && (forall id :: id in back <==> id in own.0 - own0.0 && StandsIn(done, id))
    && (ok ==> back == own.0 - own0.0)
  }

  /** The same while candidates from `n` on are still to be written, and no store has failed for good. */
  ghost predicate GivenSoFar(done: seq<Candidate>, n: nat,
                             back: set<nat>, own: (set<nat>, set<nat>), own0: (set<nat>, set<nat>),
                             rows0: nat, rows: nat)
    requires n <= |done|
  {
    && own.1 == own0.1 + back && own.0 == own0.0 + back && back !! own0.0 && rows0 <= rows
    && (forall id :: id in back ==> id >= rows0 && StandsIn(done[..n], id))
    && (forall k :: 0 <= k < |done| && done[k].resource.Some? ==> done[k].resource.value.id < rows)
  }

  lemma NothingBack(options: Options, c: Candidate, ok: bool,
                    own: (set<nat>, set<nat>), rows0: seq<Resource>, rows: seq<Resource>)
    requires Grown(rows0, rows) && (c.resource.Some? ==> c.resource.value.id < |rows0|)
    ensures BackExactly(c, ok, {}, own, own, |rows0|, |rows|)
  {
    assert own.0 - own.0 == {};
  }

  lemma BackSince(c: Candidate, ok: bool, back: set<nat>, own: (set<nat>, set<nat>), own0: (set<nat>, set<nat>),
                  rows0: seq<Resource>, rows1: seq<Resource>, rows: nat)
    requires BackExactly(c, ok, back, own, own0, |rows1|, rows) && Grown(rows0, rows1)
    ensures BackExactly(c, ok, back, own, own0, |rows0|, rows)
  {
  }

  /** Copies still speak of their rows when those have developed further. */
  lemma StillRefer(rows: seq<Resource>, rows': seq<Resource>, options: Options, cs: seq<Candidate>, k: nat)
    requires Grown(rows, rows') && k < |cs| && forall j :: k <= j < |cs| ==> Refers(rows, options, cs[j])
    ensures forall j :: k <= j < |cs| ==> Refers(rows', options, cs[j])
    ensures cs[k].resource.Some? ==> cs[k].resource.value.id < |rows|
  {
  }

  lemma ReadyIsDone(rows: seq<Resource>, options: Options, c: Candidate)
    requires Refers(rows, options, c) && c.resource.Some? && c.resource.value.row.status != Pending
    ensures Done(c)
  {
  }

  lemma GivenAtStart(rows: seq<Resource>, options: Options, cs: seq<Candidate>, own: (set<nat>, set<nat>))
    requires forall k :: 0 <= k < |cs| ==> Refers(rows, options, cs[k])
    ensures GivenSoFar(cs, 0, {}, own, own, |rows|, |rows|)
  {
  }

  lemma StandsInFront(done: seq<Candidate>, n: nat, c: Candidate, id: nat)
    requires n < |done|
    ensures StandsIn(done[..n], id) ==> StandsIn(done[n := c][..n + 1], id) && StandsIn(done[n := c], id)
    ensures c.resource.Some? && c.resource.value.id == id ==> StandsIn(done[n := c][..n + 1], id)
  {
    if StandsIn(done[..n], id) {
      var k :| 0 <= k < n && done[..n][k].resource.Some? && done[..n][k].resource.value.id == id;
      assert done[n := c][..n + 1][k] == done[k] && done[n := c][k] == done[k];
    }
    assert done[n := c][..n + 1][n] == c;
  }

  lemma GivenNext(done: seq<Candidate>, n: nat, c: Candidate, ok: bool, back: set<nat>, more: set<nat>,
                  own: (set<nat>, set<nat>), own1: (set<nat>, set<nat>), own0: (set<nat>, set<nat>), rows0: nat,
                  rows1: nat, rows: nat)
    requires n < |done| && GivenSoFar(done, n, back, own1, own0, rows0, rows1) && rows1 <= rows
    requires forall id :: id in own1.0 ==> id < rows1
    requires BackExactly(c, ok, more, own, own1, rows1, rows)
    requires !ok && c.resource.Some? ==> c.resource.value.id < rows1
    ensures ok ==> GivenSoFar(done[n := c], n + 1, back + more, own, own0, rows0, rows)
    ensures !ok ==> GivenExactly(done[n := c], ok, back, own, own0, rows0)
  {
    forall id ensures StandsIn(done[..n], id) ==> StandsIn(done[n := c][..n + 1], id) && StandsIn(done[n := c], id) {
      StandsInFront(done, n, c, id);
    }
    if ok {
      forall id | id in more ensures StandsIn(done[n := c][..n + 1], id) {
        StandsInFront(done, n, c, id);
      }
    } else {
      assert more == {} && own1.1 + more == own1.1;
      forall id | id in own.0 - own0.0 ensures id >= rows0 && (id !in back ==> !StandsIn(done[n := c], id)) {
        assert id !in back ==> id in own.0 - own1.0;
      }
    }
  }

  lemma GivenAtEnd(done: seq<Candidate>, back: set<nat>, own: (set<nat>, set<nat>), own0: (set<nat>, set<nat>),
                   rows0: nat, rows: nat)
    requires GivenSoFar(done, |done|, back, own, own0, rows0, rows)
    ensures GivenExactly(done, true, back, own, own0, rows0)
  {
    assert done[..|done|] == done;
    assert own.0 - own0.0 == back;
  }

  lemma SameResources(a: seq<Candidate>, b: seq<Candidate>, ok: bool,
                      back: set<nat>, own: (set<nat>, set<nat>), own0: (set<nat>, set<nat>),
                      rows0: nat)
    requires GivenExactly(a, ok, back, own, own0, rows0) && |b| == |a|
    requires forall k :: 0 <= k < |a| ==> b[k].resource == a[k].resource
    ensures GivenExactly(b, ok, back, own, own0, rows0)
  {
    forall id ensures StandsIn(b, id) <==> StandsIn(a, id) {
      assert forall k :: 0 <= k < |a| ==> b[k].resource == a[k].resource;
    }
  }

  lemma NothingGiven(done: seq<Candidate>, ok: bool, own: (set<nat>, set<nat>), rows0: nat)
    ensures GivenExactly(done, ok, {}, own, own, rows0)
  {
    assert own.0 - own.0 == {};
  }

  lemma GivenSince(done: seq<Candidate>, ok: bool,
                   back: set<nat>, own: (set<nat>, set<nat>), own0: (set<nat>, set<nat>), rows0: nat, rows1: nat)
    requires GivenExactly(done, ok, back, own, own0, rows1) && rows0 <= rows1
    ensures GivenExactly(done, ok, back, own, own0, rows0)
  {
  }

  /** A candidate whose claimed row has no quota day yet. */
  predicate ToBind(c: Candidate) {
    c.resource.Some? && c.resource.value.row.status == Pending && c.resource.value.row.quotaDay == ""
  }

  function BoundOf(c: Candidate): Candidate
    requires c.resource.Some?
  {
    c.(dailyReserved := false,
       resource := Some(c.resource.value.(row := c.resource.value.row.(quotaDay := c.quotaDay))))
  }

  /** The first `n` candidates after their rows were bound. */
  function Unmarked(cs: seq<Candidate>, n: nat): seq<Candidate> {
    seq(|cs|, k requires 0 <= k < |cs| => if k < n && ToBind(cs[k]) then BoundOf(cs[k]) else cs[k])
  }

  /** The noted days are those of the first `n` candidates that need one. */
  ghost predicate DaysFor(days: map<nat, Day>, cs: seq<Candidate>, n: nat)
    requires n <= |cs|
  {
    && (forall k :: 0 <= k < n && ToBind(cs[k]) ==>
        cs[k].resource.value.id in days && days[cs[k].resource.value.id] == cs[k].quotaDay)
    && (forall id :: id in days ==> exists k :: 0 <= k < n && ToBind(cs[k]) && cs[k].resource.value.id == id)
  }

  lemma NoDays(cs: seq<Candidate>)
    ensures DaysFor(map[], cs, 0)
  {
  }

  lemma NewPaths(cs: seq<Candidate>, k: nat, c: Candidate)
    requires DistinctPaths(cs) && k < |cs| && SameMedia(c, cs[k])
    ensures DistinctPaths(cs[k := c])
  {
  }

  lemma NextDay(rows: seq<Resource>, options: Options, cs: seq<Candidate>, days: map<nat, Day>, k: nat, c: Candidate)
    requires DistinctPaths(cs) && k < |cs| && DaysFor(days, cs, k)
    requires forall j :: 0 <= j < |cs| ==> Refers(rows, options, cs[j])
    requires SameMedia(c, cs[k]) && (ToBind(c) ==> Reserved(c, options) && cs[k].resource.Some?)
    requires ToBind(c) ==> c.resource.value.id == cs[k].resource.value.id
    ensures DistinctPaths(cs[k := c])
    ensures ToBind(c) ==> c.quotaDay != "" && DaysFor(days[c.resource.value.id := c.quotaDay], cs[k := c], k + 1)
    ensures !ToBind(c) ==> DaysFor(days, cs[k := c], k + 1)
  {
    NewPaths(cs, k, c);
    hide Refers, DistinctPaths, SameMedia;
    var next := cs[k := c];
    if ToBind(c) {
      var id := c.resource.value.id;
      forall j | 0 <= j < k && ToBind(cs[j]) ensures cs[j].resource.value.id != id {
        DistinctIds(rows, options, cs, j, k);
      }
      var noted := days[id := c.quotaDay];
      forall other | other in noted
        ensures exists j :: 0 <= j < k + 1 && ToBind(next[j]) && next[j].resource.value.id == other
      {
        if other == id {
          assert ToBind(next[k]) && next[k].resource.value.id == other;
        } else {
          var j :| 0 <= j < k && ToBind(cs[j]) && cs[j].resource.value.id == other;
          assert ToBind(next[j]);
        }
      }
    } else {
      forall other | other in days
        ensures exists j :: 0 <= j < k + 1 && ToBind(next[j]) && next[j].resource.value.id == other
      {
        var j :| 0 <= j < k && ToBind(cs[j]) && cs[j].resource.value.id == other;
        assert ToBind(next[j]);
      }
    }
  }

  /** The rows after the first `n` candidates were bound. */
  function BoundRowsUpTo(rows: seq<Resource>, cs: seq<Candidate>, n: nat): (bound: seq<Resource>)
    requires n <= |cs|
    ensures |bound| == |rows|
  {
    if n == 0 then rows
    else
      var before := BoundRowsUpTo(rows, cs, n - 1);
      if ToBind(cs[n - 1]) && cs[n - 1].resource.value.id < |rows| then
        before[cs[n - 1].resource.value.id := before[cs[n - 1].resource.value.id].(quotaDay := cs[n - 1].quotaDay)]
      else before
  }

  lemma {:induction false} NotBoundYet(rows: seq<Resource>, cs: seq<Candidate>, n: nat, id: nat)
    requires n <= |cs| && id < |rows| && forall k :: 0 <= k < n && ToBind(cs[k]) ==> cs[k].resource.value.id != id
    ensures BoundRowsUpTo(rows, cs, n)[id] == rows[id]
  {
    if n > 0 {
      NotBoundYet(rows, cs, n - 1, id);
    }
  }

  lemma {:induction false} BoundByOne(rows: seq<Resource>, cs: seq<Candidate>, k: nat, n: nat, id: nat)
    requires k < n <= |cs| && id < |rows| && ToBind(cs[k]) && cs[k].resource.value.id == id
    requires forall j :: 0 <= j < |cs| && j != k && ToBind(cs[j]) ==> cs[j].resource.value.id != id
    ensures BoundRowsUpTo(rows, cs, n)[id] == rows[id].(quotaDay := cs[k].quotaDay)
  {
    if k == n - 1 {
      NotBoundYet(rows, cs, k, id);
    } else {
      BoundByOne(rows, cs, k, n - 1, id);
    }
  }

  lemma DistinctIds(rows: seq<Resource>, options: Options, cs: seq<Candidate>, j: nat, k: nat)
    requires DistinctPaths(cs) && j < |cs| && k < |cs| && j != k && cs[j].resource.Some? && cs[k].resource.Some?
    requires Refers(rows, options, cs[j]) && Refers(rows, options, cs[k])
    ensures cs[j].resource.value.id != cs[k].resource.value.id
  {
  }

  /** Writing the noted days is binding one candidate after the other. */
  lemma BoundRows(rows: seq<Resource>, bound: seq<Resource>, options: Options, cs: seq<Candidate>, days: map<nat, Day>)
    requires DistinctPaths(cs) && DaysFor(days, cs, |cs|)
    requires forall k :: 0 <= k < |cs| ==> Refers(rows, options, cs[k])
    requires |bound| == |rows|
    requires forall id :: 0 <= id < |rows| ==>
               bound[id] == if id in days then rows[id].(quotaDay := days[id]) else rows[id]
    ensures bound == BoundRowsUpTo(rows, cs, |cs|)
  {
    hide BoundRowsUpTo, Refers, DistinctPaths;
    forall id | 0 <= id < |rows| ensures bound[id] == BoundRowsUpTo(rows, cs, |cs|)[id] {
      if id in days {
        var k :| 0 <= k < |cs| && ToBind(cs[k]) && cs[k].resource.value.id == id;
        BoundByIts(rows, options, cs, k);
      } else {
        NotBoundYet(rows, cs, |cs|, id);
      }
    }
  }

  lemma BoundByIts(rows: seq<Resource>, options: Options, cs: seq<Candidate>, k: nat)
    requires DistinctPaths(cs) && k < |cs| && ToBind(cs[k])
    requires forall j :: 0 <= j < |cs| ==> Refers(rows, options, cs[j])
    ensures cs[k].resource.value.id < |rows|
    ensures BoundRowsUpTo(rows, cs, |cs|)[cs[k].resource.value.id]
              == rows[cs[k].resource.value.id].(quotaDay := cs[k].quotaDay)
  {
    hide DistinctPaths;
    forall j | 0 <= j < |cs| && j != k && ToBind(cs[j]) ensures cs[j].resource.value.id != cs[k].resource.value.id {
      DistinctIds(rows, options, cs, j, k);
    }
    BoundByOne(rows, cs, k, |cs|, cs[k].resource.value.id);
  }

  predicate Unbound(rows: seq<Resource>, unpaid: set<nat>, id: nat) {
    id < |rows| && rows[id].status == Pending && rows[id].quotaDay == "" && id !in unpaid
  }

  lemma HandedOverOne(rows: seq<Resource>, unpaid: set<nat>, cs: seq<Candidate>, k: nat, day: Day)
    requires k < |cs| && ToBind(cs[k]) && cs[k].dailyReserved
    requires Unbound(rows, unpaid, cs[k].resource.value.id)
    requires rows[cs[k].resource.value.id].source.Some? && rows[cs[k].resource.value.id].size == cs[k].size
    ensures var id := cs[k].resource.value.id;
            && Carried(rows[id := rows[id].(quotaDay := cs[k].quotaDay)], unpaid, day)
                 + Total(cs[k := BoundOf(cs[k])], OnDay(day))
            == Carried(rows, unpaid, day) + Total(cs, OnDay(day))
  {
    hide Carried, Total;
    var id := cs[k].resource.value.id;
    CarriedUpdated(rows, unpaid, id, rows[id].(quotaDay := cs[k].quotaDay), day);
    TotalUpdated(cs, k, BoundOf(cs[k]), OnDay(day));
  }

  lemma NoneMarked(cs: seq<Candidate>)
    ensures Unmarked(cs, 0) == cs
  {
  }

  /** Unmarking one candidate more. */
  lemma UnmarkedNext(cs: seq<Candidate>, n: nat)
    requires 0 < n <= |cs|
    ensures |Unmarked(cs, n - 1)| == |cs| && Unmarked(cs, n - 1)[n - 1] == cs[n - 1]
    ensures Unmarked(cs, n) ==
            if ToBind(cs[n - 1]) then Unmarked(cs, n - 1)[n - 1 := BoundOf(cs[n - 1])] else Unmarked(cs, n - 1)
  {
  }

  lemma RefersToRow(rows: seq<Resource>, options: Options, c: Candidate)
    requires Refers(rows, options, c) && c.resource.Some?
    ensures var id := c.resource.value.id; id < |rows| && rows[id].size == c.size && rows[id].source.Some?
  {
  }

  /** What binding takes from the candidates' daily bytes the rows carry. */
  lemma {:induction false} HandedOver(rows: seq<Resource>, unpaid: set<nat>, options: Options,
                                      cs: seq<Candidate>, n: nat, day: Day)
    requires DistinctPaths(cs) && n <= |cs|
    requires forall k :: 0 <= k < |cs| ==> Refers(rows, options, cs[k]) && Reserved(cs[k], options)
    requires forall k :: 0 <= k < |cs| && ToBind(cs[k]) ==> Unbound(rows, unpaid, cs[k].resource.value.id)
    ensures Carried(BoundRowsUpTo(rows, cs, n), unpaid, day) + Total(Unmarked(cs, n), OnDay(day))
         == Carried(rows, unpaid, day) + Total(cs, OnDay(day))
  {
    hide Carried, Total, DistinctPaths, Bears, Unmarked, Refers;
    if n == 0 {
      NoneMarked(cs);
    } else {
      HandedOver(rows, unpaid, options, cs, n - 1, day);
      UnmarkedNext(cs, n);
      var before, c := BoundRowsUpTo(rows, cs, n - 1), cs[n - 1];
      if ToBind(c) {
        var id := c.resource.value.id;
        forall k | 0 <= k < n - 1 && ToBind(cs[k]) ensures cs[k].resource.value.id != id {
          DistinctIds(rows, options, cs, k, n - 1);
        }
        RefersToRow(rows, options, c);
        NotBoundYet(rows, cs, n - 1, id);
        HandedOverOne(before, unpaid, Unmarked(cs, n - 1), n - 1, day);
      }
    }
  }

  lemma KnownIds(rows: seq<Resource>, options: Options, cs: seq<Candidate>, days: map<nat, Day>)
    requires DaysFor(days, cs, |cs|) && forall k :: 0 <= k < |cs| ==> Refers(rows, options, cs[k])
    ensures forall id :: id in days ==> id < |rows|
  {
  }

  /** Binding changes quota days only, on both sides alike. */
  lemma BoundRefers(rows: seq<Resource>, bound: seq<Resource>, unpaid: set<nat>, options: Options,
                    cs: seq<Candidate>, days: map<nat, Day>)
    requires DaysFor(days, cs, |cs|) && Indexed(rows)
    requires forall id :: id in unpaid ==> id < |rows| && rows[id].quotaDay != ""
    requires forall k :: 0 <= k < |cs| ==> Refers(rows, options, cs[k]) && Reserved(cs[k], options)
    requires forall id :: id in days ==> id < |rows| && rows[id].status == Pending && rows[id].quotaDay == ""
    requires |bound| == |rows|
    requires forall id :: 0 <= id < |rows| ==>
               bound[id] == if id in days then rows[id].(quotaDay := days[id]) else rows[id]
    ensures Indexed(bound) && Grown(rows, bound) && forall id :: id in unpaid ==> bound[id].quotaDay != ""
    ensures forall k :: 0 <= k < |cs| ==> Refers(bound, options, Unmarked(cs, |cs|)[k])
    ensures forall k :: 0 <= k < |cs| && ToBind(cs[k]) ==> Unbound(rows, unpaid, cs[k].resource.value.id)
  {
  }

  lemma {:induction false} UnmarkedInProcess(cs: seq<Candidate>, n: nat)
    requires n <= |cs|
    ensures Total(Unmarked(cs, n), InProcess) == Total(cs, InProcess)
  {
    hide Total, Unmarked;
    if n == 0 {
      NoneMarked(cs);
    } else {
      UnmarkedInProcess(cs, n - 1);
      UnmarkedNext(cs, n);
      if ToBind(cs[n - 1]) {
        TotalUpdated(Unmarked(cs, n - 1), n - 1, BoundOf(cs[n - 1]), InProcess);
      }
    }
  }

  function Released(c: Candidate): Candidate {
    c.(quotaReserved := false, dailyReserved := false)
  }

  lemma ReleasedTotals(cs: seq<Candidate>, k: nat)
    requires k < |cs|
    ensures forall account ::
              && Total(cs[k := Released(cs[k])], account) == Total(cs, account) - Holds(cs[k], account)
              && Total(cs, account) >= Holds(cs[k], account)
  {
    forall account
      ensures Total(cs[k := Released(cs[k])], account) == Total(cs, account) - Holds(cs[k], account)
           && Total(cs, account) >= Holds(cs[k], account)
    {
      TotalUpdated(cs, k, Released(cs[k]), account);
    }
  }

  /** A candidate when the writing starts. */
  predicate Writable(c: Candidate, options: Options) {
    && Sane(c) && Bound(c)
    && (c.resource.None? ==> if options.enforceQuota then c.dailyReserved else c.quotaDay == "" && !c.quotaReserved)
    && (c.resource.Some? ==> (c.quotaReserved <==> c.resource.value.row.status != Ready))
  }

  /** A look-up of the output cannot miss the one row it has. */
  lemma LookedUpRow(rows: seq<Resource>, id: nat, options: Options, c: Candidate, now: int)
    requires Indexed(rows) && id < |rows| && Usable(rows[id]) && rows[id].source.Some?
    requires rows[id].source == options.source
    requires rows[id].path == c.path && Acceptable(rows[id], options, c, now)
    ensures NoObstacle(rows, options, c, now)
    ensures forall i ::
              (0 <= i < |rows| && Usable(rows[i]) && rows[i].source == options.source && rows[i].path == c.path) ==>
                i == id
  {
    forall i | 0 <= i < |rows| && Usable(rows[i]) && rows[i].source == options.source && rows[i].path == c.path
      ensures i == id
    {
      OneRow(rows, i, id);
    }
  }

  lemma OneRow(rows: seq<Resource>, i: nat, j: nat)
    requires Indexed(rows) && i < |rows| && j < |rows| && Usable(rows[i]) && Usable(rows[j])
    requires SameOutput(rows[i], rows[j])
    ensures i == j
  {
  }

  lemma SamePaths(before: seq<Candidate>, after: seq<Candidate>)
    requires DistinctPaths(before) && |after| == |before|
    requires forall k :: 0 <= k < |before| ==> SameMedia(after[k], before[k])
    ensures DistinctPaths(after)
  {
  }

  /** The loop that hands the daily bytes of every bound candidate over. */
  method MarkBound(cs: seq<Candidate>) returns (bound: seq<Candidate>)
    ensures bound == Unmarked(cs, |cs|)
  {
    bound := cs;
    for k := 0 to |cs|
      invariant bound == Unmarked(cs, k)
    {
      if ToBind(bound[k]) {
        bound := bound[k := BoundOf(bound[k])];
      }
    }
  }

  lemma WritableIsSane(cs: seq<Candidate>, options: Options)
    ensures forall k :: 0 <= k < |cs| && Writable(cs[k], options) ==> Sane(cs[k])
  {
  }

  lemma WritableWhenBound(cs: seq<Candidate>, options: Options)
    requires forall k :: 0 <= k < |cs| ==> Reserved(cs[k], options)
    ensures forall k :: 0 <= k < |cs| ==> Writable(Unmarked(cs, |cs|)[k], options)
  {
  }

  lemma NothingReserved(rows: seq<Resource>, cs: seq<Candidate>, options: Options)
    requires !options.enforceQuota && options.source.None?
    requires forall k :: 0 <= k < |cs| ==> Refers(rows, options, cs[k]) && Fresh(cs[k].(resource := None))
    ensures forall k :: 0 <= k < |cs| ==> Reserved(cs[k], options)
  {
  }

  predicate SameMedia(a: Candidate, b: Candidate) {
    a.path == b.path && a.sha == b.sha && a.size == b.size && a.mime == b.mime
  }

  /** A candidate once the reservations are made. */
  predicate Reserved(c: Candidate, options: Options) {
    && Sane(c)
    && (!options.enforceQuota ==> c.resource.None? && c.quotaDay == "" && !c.quotaReserved)
    && (options.enforceQuota && c.resource.None? ==> c.dailyReserved)
    && (c.resource.Some? ==>
          if c.resource.value.row.status == Ready then !c.quotaReserved
          else c.quotaReserved && (c.dailyReserved <==> c.resource.value.row.quotaDay == ""))
  }

  /** Bytes are lost by failed writes only. */
  ghost predicate LostByFailure(lost: string -> nat, failures: nat, lost0: string -> nat, failures0: nat) {
    (forall day :: lost(day) >= lost0(day)) && failures >= failures0 && (failures == failures0 ==> lost == lost0)
  }

  /** Rows are only added, and each develops as other calls may make it. */
  ghost predicate Grown(before: seq<Resource>, after: seq<Resource>) {
    |before| <= |after| && forall i :: 0 <= i < |before| ==> Later(before[i], after[i])
  }

  lemma RefersAlike(rows: seq<Resource>, options: Options, a: Candidate, b: Candidate)
    requires a.resource == b.resource && SameMedia(a, b)
    ensures Refers(rows, options, a) <==> Refers(rows, options, b)
  {
  }

  lemma GrownFromSame(rows: seq<Resource>)
    ensures Grown(rows, rows)
  {
  }

  lemma GrownSize(a: seq<Resource>, b: seq<Resource>)
    requires Grown(a, b)
    ensures |a| <= |b|
  {
  }

  lemma GrownTwice(a: seq<Resource>, b: seq<Resource>, c: seq<Resource>)
    requires Grown(a, b) && Grown(b, c)
    ensures Grown(a, c) && |a| <= |b| <= |c|
  {
  }

  /** Changing no flag, size or day of a candidate changes no total. */
  lemma SameTotals(cs: seq<Candidate>, k: nat, c: Candidate)
    requires k < |cs| && c.(resource := None) == cs[k].(resource := None)
    ensures forall account :: Total(cs[k := c], account) == Total(cs, account)
  {
    forall account ensures Total(cs[k := c], account) == Total(cs, account) {
      TotalUpdated(cs, k, c, account);
    }
  }

  // ---------------------------------------------------------------- a calm run, step by step

  lemma FreshRefers(rows: seq<Resource>, options: Options, cs: seq<Candidate>)
    requires forall k :: 0 <= k < |cs| ==> Fresh(cs[k])
    ensures forall k :: 0 <= k < |cs| ==> Refers(rows, options, cs[k]) && cs[k].(resource := None) == cs[k]
  {
  }

  lemma GrownOn(tables: seq<seq<Resource>>, before: seq<Resource>, rows: seq<Resource>)
    requires Grown(before, rows) && forall j :: 0 <= j < |tables| ==> Grown(tables[j], before)
    ensures forall j :: 0 <= j < |tables| ==> Grown(tables[j], rows)
  {
    hide Grown;
    forall j | 0 <= j < |tables| ensures Grown(tables[j], rows) {
      GrownTwice(tables[j], before, rows);
    }
  }

  lemma NoObstacleLater(rows: seq<Resource>, options: Options, c: Candidate, earlier: int, now: int)
    requires earlier <= now
    ensures NoObstacle(rows, options, c, earlier) ==> NoObstacle(rows, options, c, now)
  {
  }

  lemma NothingMoreOf(pending: nat, uploads: map<Day, nat>, size: nat)
    ensures WithinMore(pending, uploads, pending, uploads, size)
  {
  }

  lemma NothingMore(pending: nat, uploads: map<Day, nat>, cs: seq<Candidate>)
    ensures WithinMore(pending, uploads, pending, uploads, Sizes(cs[..0]))
  {
  }

  lemma {:induction false} SizesGrow(cs: seq<Candidate>, k: nat)
    requires k < |cs|
    ensures Sizes(cs[..k + 1]) == Sizes(cs[..k]) + cs[k].size <= Sizes(cs)
    decreases |cs|
  {
    var last := |cs| - 1;
    if k == last {
      assert cs[..k + 1] == cs;
    } else {
      SizesGrow(cs[..last], k);
      assert cs[..last][..k] == cs[..k] && cs[..last][..k + 1] == cs[..k + 1];
    }
  }

  lemma {:induction false} SameSizes(a: seq<Candidate>, b: seq<Candidate>)
    requires |a| == |b| && forall k :: 0 <= k < |a| ==> a[k].size == b[k].size
    ensures Sizes(a) == Sizes(b)
    decreases |a|
  {
    if a != [] {
      SameSizes(a[..|a| - 1], b[..|b| - 1]);
    }
  }

  lemma MatchLater(rows: seq<Resource>, options: Options, cs: seq<Candidate>, k: nat, earlier: int, now: int)
    requires MatchUpTo(rows, options, cs, k, earlier) && earlier <= now
    ensures MatchUpTo(rows, options, cs, k, now)
  {
  }

  lemma SameLookUps(rows: seq<Resource>, options: Options, found: seq<Candidate>, done: seq<Candidate>)
    requires |found| == |done| && forall k :: 0 <= k < |found| ==>
               done[k].resource == found[k].resource && done[k].path == found[k].path
    requires forall k :: 0 <= k < |found| ==> LookedUp(rows, options, found[k])
    ensures forall k :: 0 <= k < |done| ==> LookedUp(rows, options, done[k])
  {
    forall k | 0 <= k < |done| ensures LookedUp(rows, options, done[k]) {
      assert LookedUp(rows, options, found[k]);
    }
  }

  /** What was found, with nothing in the way, matches the table and may be claimed. */
  lemma FoundMatches(rows: seq<Resource>, options: Options, cs: seq<Candidate>, done: seq<Candidate>,
                     earlier: int, now: int)
    requires NothingInTheWay(rows, options, cs, earlier) && earlier <= now && |cs| == |done|
    requires forall k :: 0 <= k < |cs| ==> LookedUp(rows, options, done[k]) && done[k].path == cs[k].path
    ensures MatchUpTo(rows, options, done, 0, now)
  {
    forall k | 0 <= k < |cs| ensures Matches(rows, options, done[k]) && Claimable(rows, options, done[k], now) {
      assert LookedUp(rows, options, done[k]) && NoObstacle(rows, options, cs[k], earlier);
    }
  }

  lemma ClaimableThere(rows: seq<Resource>, options: Options, cs: seq<Candidate>, k: nat, now: int)
    requires k < |cs| && MatchUpTo(rows, options, cs, k, now)
    ensures Claimable(rows, options, cs[k], now)
  {
  }

  lemma AllAsThemselves(cs: seq<Candidate>)
    ensures forall k :: 0 <= k < |cs| ==> SameMedia(cs[k], cs[k])
  {
  }

  lemma SameAsItself(c: Candidate)
    ensures SameMedia(c, c)
  {
  }

  lemma MatchClaimed(rows0: seq<Resource>, rows: seq<Resource>, options: Options, cs: seq<Candidate>, k: nat,
                     c: Candidate, now: int)
    requires k < |cs| && MatchUpTo(rows0, options, cs, k, now) && Retouched(rows0, rows, cs[k], c) && DistinctPaths(cs)
    requires forall j :: 0 <= j < |cs| ==> Refers(rows, options, cs[j])
    ensures MatchUpTo(rows, options, cs[k := c], k + 1, now) && SameRow(c, cs[k])
  {
    hide DistinctPaths, Refers;
    var next := cs[k := c];
    if cs[k].resource.Some? {
      forall j | 0 <= j < |cs| && j != k && cs[j].resource.Some?
        ensures cs[j].resource.value.id != cs[k].resource.value.id
      {
        DistinctIds(rows, options, cs, j, k);
      }
    }
    forall j | 0 <= j < |cs| ensures Matches(rows, options, next[j]) {
      assert Matches(rows0, options, cs[j]);
    }
    forall j | k + 1 <= j < |cs| ensures Claimable(rows, options, next[j], now) {
      assert Claimable(rows0, options, cs[j], now);
    }
  }

  lemma UnboundDays(rows: seq<Resource>, options: Options, cs: seq<Candidate>, days: map<nat, Day>, now: int)
    requires MatchUpTo(rows, options, cs, |cs|, now) && DaysFor(days, cs, |cs|)
    ensures forall id :: id in days ==> id < |rows| && rows[id].status == Pending && rows[id].quotaDay == ""
  {
    forall id | id in days ensures id < |rows| && rows[id].status == Pending && rows[id].quotaDay == "" {
      var k :| 0 <= k < |cs| && ToBind(cs[k]) && cs[k].resource.value.id == id;
      assert Matches(rows, options, cs[k]);
    }
  }

  lemma MatchBound(rows0: seq<Resource>, rows: seq<Resource>, options: Options, cs: seq<Candidate>,
                   days: map<nat, Day>, now: int)
    requires MatchUpTo(rows0, options, cs, |cs|, now) && DaysFor(days, cs, |cs|) && |rows| == |rows0|
    requires forall id :: 0 <= id < |rows| ==>
               rows[id] == if id in days then rows0[id].(quotaDay := days[id]) else rows0[id]
    ensures MatchUpTo(rows, options, Unmarked(cs, |cs|), |cs|, now)
    ensures forall k :: 0 <= k < |cs| ==> SameRow(Unmarked(cs, |cs|)[k], cs[k])
  {
    UnboundDays(rows0, options, cs, days, now);
    forall k | 0 <= k < |cs|
      ensures Matches(rows, options, Unmarked(cs, |cs|)[k]) && SameRow(Unmarked(cs, |cs|)[k], cs[k])
    {
      assert Matches(rows0, options, cs[k]);
    }
  }

  lemma UnmarkedMedia(cs: seq<Candidate>)
    ensures |Unmarked(cs, |cs|)| == |cs| && forall k :: 0 <= k < |cs| ==> SameMedia(Unmarked(cs, |cs|)[k], cs[k])
  {
  }

  lemma NoneWritten(rows: seq<Resource>, options: Options, cs: seq<Candidate>, now: int)
    requires MatchUpTo(rows, options, cs, |cs|, now)
    ensures WrittenUpTo(rows, options, cs, cs, 0)
  {
  }

  lemma StillMatches(rows: seq<Resource>, options: Options, done: seq<Candidate>, cs: seq<Candidate>, k: nat)
    requires k < |cs| && WrittenUpTo(rows, options, done, cs, k) && done[k] == cs[k]
    ensures Matches(rows, options, done[k])
  {
  }

  lemma WroteOneMore(rows0: seq<Resource>, rows: seq<Resource>, options: Options, done: seq<Candidate>,
                     cs: seq<Candidate>, k: nat, c: Candidate)
    requires k < |cs| && WrittenUpTo(rows0, options, done, cs, k) && Wrote(rows0, rows, cs[k], c) && DistinctPaths(cs)
    requires forall j :: k <= j < |cs| ==> Refers(rows, options, cs[j])
    ensures WrittenUpTo(rows, options, done[k := c], cs, k + 1)
  {
    hide DistinctPaths, Refers;
    forall j | k < j < |cs| ensures Matches(rows, options, cs[j]) {
      assert Matches(rows0, options, cs[j]);
      OtherPath(cs, k, j);
      if cs[j].resource.Some? && cs[k].resource.Some? {
        DistinctIds(rows, options, cs, j, k);
      }
    }
    forall j | 0 <= j < k ensures ReadyFor(rows, done[j], cs[j]) {
      assert ReadyFor(rows0, done[j], cs[j]);
    }
  }

  lemma WroteRecovered(rows0: seq<Resource>, rows: seq<Resource>, options: Options, before: Candidate, c: Candidate)
    requires Refers(rows0, options, before) && before.resource.Some? && Done(c) && SameMedia(c, before)
    requires c.resource.value.id == before.resource.value.id
    requires rows == rows0[c.resource.value.id := c.resource.value.row]
    ensures Wrote(rows0, rows, before, c)
  {
  }

  lemma WroteStored(rows0: seq<Resource>, rows: seq<Resource>, before: Candidate, c: Candidate)
    requires before.resource.None? && Done(c) && SameMedia(c, before)
    requires c.resource.value.id == |rows0| && rows == rows0 + [c.resource.value.row]
    ensures Wrote(rows0, rows, before, c)
  {
  }

  lemma WroteNothing(rows: seq<Resource>, options: Options, c: Candidate)
    requires Refers(rows, options, c) && c.resource.Some? && c.resource.value.row.status != Pending
    ensures Matches(rows, options, c) ==> Wrote(rows, rows, c, c)
  {
  }

  lemma OtherPath(cs: seq<Candidate>, k: nat, j: nat)
    requires DistinctPaths(cs) && k < j < |cs|
    ensures cs[j].path != cs[k].path
  {
  }

  lemma WrittenForBoth(rows: seq<Resource>, options: Options, done: seq<Candidate>, bound: seq<Candidate>,
                       cs: seq<Candidate>)
    requires |bound| == |cs| && WrittenUpTo(rows, options, done, bound, |bound|)
    requires forall k :: 0 <= k < |cs| ==> SameRow(bound[k], cs[k])
    ensures WrittenUpTo(rows, options, done, cs, |cs|)
  {
    forall k | 0 <= k < |cs| ensures ReadyFor(rows, done[k], cs[k]) {
      assert ReadyFor(rows, done[k], bound[k]) && SameRow(bound[k], cs[k]);
    }
  }

  lemma CompletedAll(rows0: seq<Resource>, rows: seq<Resource>, options: Options, done: seq<Candidate>,
                     reserved: seq<Candidate>)
    requires Indexed(rows0) && |done| == |reserved| && WrittenUpTo(rows, options, done, reserved, |reserved|)
    requires forall k :: 0 <= k < |done| ==>
               LookedUp(rows0, options, reserved[k]) && SameMedia(done[k], reserved[k])
    ensures RowsCompleted(rows0, rows, options, done)
  {
    hide Indexed;
    forall k, i | 0 <= k < |done| && 0 <= i < |rows0| && Usable(rows0[i]) && options.source.Some? &&
                  rows0[i].source == options.source && rows0[i].path == done[k].path
      ensures done[k].resource.Some? && i == done[k].resource.value.id
    {
      assert LookedUp(rows0, options, reserved[k]) && ReadyFor(rows, done[k], reserved[k]);
      OneRow(rows0, i, reserved[k].resource.value.id);
    }
    forall k | 0 <= k < |done|
      ensures done[k].resource.Some? && done[k].resource.value.id < |rows|
      ensures rows[done[k].resource.value.id].status == Ready
    {
      assert ReadyFor(rows, done[k], reserved[k]);
    }
  }
}
