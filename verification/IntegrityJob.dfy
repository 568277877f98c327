/** The background job that re-hashes the evidence of a case: what it counts, what an observer can see
    while it runs, and what it flags. */
module IntegrityJob {
  import opened Common
  import opened Texts
  import opened EvidenceNames
  import opened EvidenceTables

  datatype Item = Item(id: UUID, key: ObjectKey, hash: string)

  /** What reading an object gives: its bytes, or an error on opening it or on the way. */
  datatype Read = Unreadable | Content(data: Bytes)

  datatype Class = Intact | Mismatch | Missing

  /** What an item is, by its object alone. */
  function ClassOf(sha: Bytes -> string, item: Item, read: Read): Class {
    match read
    case Unreadable => Missing
    case Content(data) => if sha(data) == item.hash then Intact else Mismatch
  }

  function Classes(sha: Bytes -> string, items: seq<Item>, files: seq<Read>): (cs: seq<Class>)
    requires |files| == |items|
    ensures |cs| == |items| && forall i | 0 <= i < |cs| :: cs[i] == ClassOf(sha, items[i], files[i])
  {
    seq(|items|, i requires 0 <= i < |items| => ClassOf(sha, items[i], files[i]))
  }

  /** How many of the first k items are of a class. */
  function Count(cs: seq<Class>, k: nat, c: Class): nat
    requires k <= |cs|
  {
    if k == 0 then 0 else Count(cs, k - 1, c) + if cs[k - 1] == c then 1 else 0
  }

  /** Digests are never empty text. */
  ghost predicate NonEmpty(sha: Bytes -> string) { forall data :: sha(data) != "" }

  // ---------------------------------------------------------------- one file

  /** The computed digest, empty when the file could not be read, and whether verification failed. */
  method VerifyFileHash(sha: Bytes -> string, read: Read, expected: string) returns (computed: string, failed: bool)
    ensures failed <==> !(read.Content? && sha(read.data) == expected)
    ensures computed == if read.Content? then sha(read.data) else ""
    ensures NonEmpty(sha) ==> (computed == "" <==> read.Unreadable?)
  {
    if read.Unreadable? {
      return "", true;
    }
    computed := sha(read.data);
    failed := computed != expected;
  }

  // ---------------------------------------------------------------- the job

  datatype Status = Running | Completed | Failed

  datatype Snapshot = Snapshot(status: Status, total: nat, verified: nat, mismatches: nat, missing: nat)
  {
    function Processed(): nat { verified + mismatches + missing }
  }

  const NEW := Snapshot(Running, 0, 0, 0, 0)

  /** The job after the first k items. */
  function At(status: Status, cs: seq<Class>, k: nat): Snapshot
    requires k <= |cs|
  {
    Snapshot(status, |cs|, Count(cs, k, Intact), Count(cs, k, Mismatch), Count(cs, k, Missing))
  }

  /** The states from loading the items to processing the k-th. */
  function Progress(cs: seq<Class>, k: nat): seq<Snapshot>
    requires k <= |cs|
  {
    (if k == 0 then [] else Progress(cs, k - 1)) + [At(Running, cs, k)]
  }

  /** Everything an observer can see of a job over items of these classes, in order. */
  function Trace(cs: seq<Class>): seq<Snapshot> {
    [NEW] + Progress(cs, |cs|) + [At(Completed, cs, |cs|)]
  }

  /** Those of the first k items whose object is not what was recorded, in order. */
  function Bad(items: seq<Item>, cs: seq<Class>, k: nat): seq<UUID>
    requires k <= |items| == |cs|
  {
    if k == 0 then [] else Bad(items, cs, k - 1) + if cs[k - 1] == Intact then [] else [items[k - 1].id]
  }

  /** Those of them whose flag was written. */
  function Flagged(items: seq<Item>, cs: seq<Class>, flags: seq<Outcome>, k: nat): set<UUID>
    requires k <= |items| == |cs| == |flags|
  {
    if k == 0 then {} else
      Flagged(items, cs, flags, k - 1) + if cs[k - 1] != Intact && flags[k - 1].Effective() then {items[k - 1].id} else {}
  }

  /** What a finished job has to say of the files: how many read back with the recorded digest, with another one, and
      not at all; and, for every file that is not as recorded, one alert for its item, and a flag if that call took
      effect. */
  ghost predicate Detects(sha: Bytes -> string, items: seq<Item>, files: seq<Read>, flags: seq<Outcome>, s: Snapshot,
                          alerts: seq<UUID>, alerts': seq<UUID>, flagged: set<UUID>, flagged': set<UUID>)
    requires |files| == |flags| == |items|
  {
    && s.verified == |set i: nat | i < |items| && files[i].Content? && sha(files[i].data) == items[i].hash|
    && s.mismatches == |set i: nat | i < |items| && files[i].Content? && sha(files[i].data) != items[i].hash|
    && s.missing == |set i: nat | i < |items| && files[i].Unreadable?|
    && |alerts'| == |alerts| + s.mismatches + s.missing
    && (forall id :: id in alerts' <==> id in alerts || exists i ::
         0 <= i < |items| && items[i].id == id && !(files[i].Content? && sha(files[i].data) == items[i].hash))
    && (forall id :: id in flagged' <==> id in flagged || exists i ::
         0 <= i < |items| && items[i].id == id && !(files[i].Content? && sha(files[i].data) == items[i].hash)
         && flags[i].Effective())
  }

  class VerificationJob {
    var status: Status
    var total: nat
    var verified: nat
    var mismatches: nat
    var missing: nat
    /** The states between critical sections of the job's lock: what snapshots can return. */
    ghost var seen: seq<Snapshot>

    ghost function State(): Snapshot
      reads this
    {
      Snapshot(status, total, verified, mismatches, missing)
    }

    constructor ()
      ensures State() == NEW && seen == [NEW]
    {
      status, total, verified, mismatches, missing := Running, 0, 0, 0, 0;
      seen := [NEW];
    }

    method TakeSnapshot() returns (s: Snapshot)
      ensures s == State()
    {
      s := Snapshot(status, total, verified, mismatches, missing);
    }

    method SetTotal(n: nat)
      modifies this
      ensures State() == old(State()).(total := n) && seen == old(seen) + [State()]
    {
      total := n;
      seen := seen + [State()];
    }

    method SetStatus(s: Status)
      modifies this
      ensures State() == old(State()).(status := s) && seen == old(seen) + [State()]
    {
      status := s;
      seen := seen + [State()];
    }

    method CountItem(c: Class)
      modifies this
      ensures State() == match c
                         case Intact => old(State()).(verified := old(verified) + 1)
                         case Mismatch => old(State()).(mismatches := old(mismatches) + 1)
                         case Missing => old(State()).(missing := old(missing) + 1)
      ensures seen == old(seen) + [State()]
    {
      match c {
        case Intact => verified := verified + 1;
        case Mismatch => mismatches := mismatches + 1;
        case Missing => missing := missing + 1;
      }
      seen := seen + [State()];
    }
  }

  /** `flagged` is the set of rows with an integrity warning, `alerts` the custody events and
      notifications raised, by item. */
  class Handler {
    const sha: Bytes -> string
    var flagged: set<UUID>
    var alerts: seq<UUID>

    constructor (sha: Bytes -> string)
      ensures this.sha == sha && flagged == {} && alerts == []
    {
      this.sha := sha;
      flagged, alerts := {}, [];
    }

    method HandleBad(job: VerificationJob, item: Item, c: Class, flag: Outcome)
      requires c != Intact
      modifies this, job
      ensures job.State() == match c
                             case Intact => old(job.State())
                             case Mismatch => old(job.State()).(mismatches := old(job.mismatches) + 1)
                             case Missing => old(job.State()).(missing := old(job.missing) + 1)
      ensures job.seen == old(job.seen) + [job.State()]
      ensures flagged == old(flagged) + if flag.Effective() then {item.id} else {}
      ensures alerts == old(alerts) + [item.id]
    {
      job.CountItem(c);
      if flag.Effective() {
        flagged := flagged + {item.id};
      }
      alerts := alerts + [item.id];
    }

    method VerifyItem(job: VerificationJob, item: Item, read: Read, flag: Outcome)
      requires NonEmpty(sha)
      modifies this, job
      ensures job.State() == if read.Unreadable? then old(job.State()).(missing := old(job.missing) + 1)
                             else if sha(read.data) != item.hash then old(job.State()).(mismatches := old(job.mismatches) + 1)
                             else old(job.State()).(verified := old(job.verified) + 1)
      ensures job.seen == old(job.seen) + [job.State()]
      ensures var good := read.Content? && sha(read.data) == item.hash;
              && flagged == old(flagged) + (if !good && flag.Effective() then {item.id} else {})
              && alerts == old(alerts) + if good then [] else [item.id]
    {
      var computed, failed := VerifyFileHash(sha, read, item.hash);
      if failed {
        if computed != "" {
          HandleBad(job, item, Mismatch, flag);
          return;
        }
        HandleBad(job, item, Missing, flag);
        return;
      }
      job.CountItem(Intact);
    }

    /** A whole run over a listing that may fail to load, with any result of every read and flag call. A run
        that was not failed logs a last snapshot. */
    method RunVerification(job: VerificationJob, listing: Option<seq<Item>>, files: seq<Read>, flags: seq<Outcome>)
      returns (logged: Option<Snapshot>)
      requires NonEmpty(sha) && job.State() == NEW && job.seen == [NEW]
      requires listing.Some? ==> |files| == |flags| == |listing.value|
      modifies this, job
      ensures listing.None? ==>
                && job.seen == [NEW, NEW.(status := Status.Failed)] && job.State() == NEW.(status := Status.Failed)
                && flagged == old(flagged) && alerts == old(alerts) && logged == None
      ensures listing.Some? ==>
                var cs := Classes(sha, listing.value, files);
                && job.seen == Trace(cs) && job.State() == At(Completed, cs, |cs|) && logged == Some(job.State())
                && flagged == old(flagged) + Flagged(listing.value, cs, flags, |cs|)
                && alerts == old(alerts) + Bad(listing.value, cs, |cs|)
      ensures listing.Some? ==>
                Detects(sha, listing.value, files, flags, job.State(), old(alerts), alerts, old(flagged), flagged)
    {
      if listing.None? {
        job.SetStatus(Status.Failed);
        return None;
      }
      var items := listing.value;
      ghost var cs := Classes(sha, items, files);
      job.SetTotal(|items|);
      for i := 0 to |items|
        invariant job.State() == At(Running, cs, i)
        invariant job.seen == [NEW] + Progress(cs, i)
        invariant flagged == old(flagged) + Flagged(items, cs, flags, i)
        invariant alerts == old(alerts) + Bad(items, cs, i)
      {
        VerifyItem(job, items[i], files[i], flags[i]);
      }
      if job.status == Running {
        job.SetStatus(Completed);
      }
      var snap := job.TakeSnapshot();
      logged := Some(snap);
      FinishedJobDetects(sha, items, files, flags, old(alerts), old(flagged));
    }
  }

  // ---------------------------------------------------------------- conservation

  lemma {:induction false} ClassesPartition(cs: seq<Class>, k: nat)
    requires k <= |cs|
    ensures Count(cs, k, Intact) + Count(cs, k, Mismatch) + Count(cs, k, Missing) == k
  {
    if k > 0 {
      ClassesPartition(cs, k - 1);
    }
  }

  lemma {:induction false} ProgressAt(cs: seq<Class>, k: nat, i: nat)
    requires i <= k <= |cs|
    ensures |Progress(cs, k)| == k + 1 && Progress(cs, k)[i] == At(Running, cs, i)
  {
    if k > 0 {
      ProgressAt(cs, k - 1, if i < k then i else 0);
    }
  }

  lemma TraceAt(cs: seq<Class>, i: nat)
    requires i < |Trace(cs)|
    ensures |Trace(cs)| == |cs| + 3
    ensures Trace(cs)[i] == if i == 0 then NEW else if i <= |cs| + 1 then At(Running, cs, i - 1) else At(Completed, cs, |cs|)
  {
    ProgressAt(cs, |cs|, if 1 <= i <= |cs| + 1 then i - 1 else 0);
  }

  lemma AtConserves(status: Status, cs: seq<Class>, k: nat)
    requires k <= |cs|
    ensures At(status, cs, k).Processed() == k
  {
    ClassesPartition(cs, k);
  }

  /** At every moment an observer can see, the three counters together are the number of items processed
      and at most the total, */
  lemma Conservation(cs: seq<Class>, i: nat, s: Snapshot)
    requires i < |Trace(cs)| && s == Trace(cs)[i]
    ensures s.Processed() == if i == 0 then 0 else Min(i - 1, |cs|)
    ensures s.Processed() <= s.total
  {
    TraceAt(cs, i);
    if 0 < i <= |cs| + 1 {
      AtConserves(Running, cs, i - 1);
    } else {
      AtConserves(Completed, cs, |cs|);
    }
  }

  /** and the job is completed only at the end, when it has processed everything. */
  lemma CompletedHasProcessedAll(cs: seq<Class>, i: nat, s: Snapshot)
    requires i < |Trace(cs)| && s == Trace(cs)[i]
    ensures s.status == Completed <==> i == |Trace(cs)| - 1
    ensures s.status == Completed ==> s.Processed() == s.total && s.total == |cs|
  {
    TraceAt(cs, i);
    AtConserves(Completed, cs, |cs|);
  }

  /** The positions of a class among the first k. */
  function Positions(cs: seq<Class>, k: nat, c: Class): set<nat>
    requires k <= |cs|
  {
    set i: nat | i < k && cs[i] == c
  }

  lemma OneMorePosition(cs: seq<Class>, k: nat, c: Class)
    requires 0 < k <= |cs|
    ensures Positions(cs, k, c) == Positions(cs, k - 1, c) + if cs[k - 1] == c then {k - 1} else {}
  {
  }

  /** Each counter is the number of processed items of its class. */
  lemma {:induction false} CountIsNumberOfItems(cs: seq<Class>, k: nat, c: Class)
    requires k <= |cs|
    ensures Count(cs, k, c) == |Positions(cs, k, c)|
  {
    if k > 0 {
      CountIsNumberOfItems(cs, k - 1, c);
      OneMorePosition(cs, k, c);
    }
  }

  lemma {:induction false} CountsOnlyGrow(cs: seq<Class>, j: nat, k: nat, c: Class)
    requires j <= k <= |cs|
    ensures Count(cs, j, c) <= Count(cs, k, c)
  {
    if j < k {
      CountsOnlyGrow(cs, j, k - 1, c);
    }
  }

  /** The flagged rows are exactly the mismatched and the missing whose flag call took effect, */
  lemma {:induction false} FlaggedAreTheBad(items: seq<Item>, cs: seq<Class>, flags: seq<Outcome>, k: nat, id: UUID)
    requires k <= |items| == |cs| == |flags|
    ensures id in Flagged(items, cs, flags, k) <==>
            exists i :: 0 <= i < k && items[i].id == id && cs[i] != Intact && flags[i].Effective()
  {
    if k > 0 {
      FlaggedAreTheBad(items, cs, flags, k - 1, id);
    }
  }

  /** and those alerted exactly the mismatched and the missing. */
  lemma {:induction false} AlertedAreTheBad(items: seq<Item>, cs: seq<Class>, k: nat, id: UUID)
    requires k <= |items| == |cs|
    ensures id in Bad(items, cs, k) <==> exists i :: 0 <= i < k && items[i].id == id && cs[i] != Intact
  {
    if k > 0 {
      AlertedAreTheBad(items, cs, k - 1, id);
    }
  }

  // ---------------------------------------------------------------- what a job says of the files

  /** After the first k items the counters say how many of their files read back with the recorded digest, with another
      one, and not at all. */
  lemma CountersTell(sha: Bytes -> string, items: seq<Item>, files: seq<Read>, k: nat)
    requires k <= |files| == |items|
    ensures var s := At(Running, Classes(sha, items, files), k);
            && s.verified == |set i: nat | i < k && files[i].Content? && sha(files[i].data) == items[i].hash|
            && s.mismatches == |set i: nat | i < k && files[i].Content? && sha(files[i].data) != items[i].hash|
            && s.missing == |set i: nat | i < k && files[i].Unreadable?|
  {
    var cs := Classes(sha, items, files);
    forall c { CountIsNumberOfItems(cs, k, c); }
    assert Positions(cs, k, Intact) == set i: nat | i < k && files[i].Content? && sha(files[i].data) == items[i].hash;
    assert Positions(cs, k, Mismatch) == set i: nat | i < k && files[i].Content? && sha(files[i].data) != items[i].hash;
    assert Positions(cs, k, Missing) == set i: nat | i < k && files[i].Unreadable?;
  }

  /** An id is alerted exactly when the file of some item of that id does not read back with the recorded digest, and
      flagged exactly when the flag call of such an item took effect. */
  lemma AlertsTell(sha: Bytes -> string, items: seq<Item>, files: seq<Read>, flags: seq<Outcome>, k: nat, id: UUID)
    requires k <= |files| == |items| == |flags|
    ensures var cs := Classes(sha, items, files);
            && (id in Bad(items, cs, k) <==> exists i ::
                 0 <= i < k && items[i].id == id && !(files[i].Content? && sha(files[i].data) == items[i].hash))
            && (id in Flagged(items, cs, flags, k) <==> exists i ::
                 0 <= i < k && items[i].id == id && !(files[i].Content? && sha(files[i].data) == items[i].hash)
                 && flags[i].Effective())
  {
    var cs := Classes(sha, items, files);
    AlertedAreTheBad(items, cs, k, id);
    FlaggedAreTheBad(items, cs, flags, k, id);
    assert forall i | 0 <= i < k :: cs[i] != Intact <==> !(files[i].Content? && sha(files[i].data) == items[i].hash);
  }

  lemma {:induction false} AlertForEach(items: seq<Item>, cs: seq<Class>, k: nat)
    requires k <= |items| == |cs|
    ensures |Bad(items, cs, k)| == Count(cs, k, Mismatch) + Count(cs, k, Missing)
  {
    if k > 0 {
      AlertForEach(items, cs, k - 1);
    }
  }

  lemma FinishedJobDetects(sha: Bytes -> string, items: seq<Item>, files: seq<Read>, flags: seq<Outcome>,
                           alerts: seq<UUID>, flagged: set<UUID>)
    requires |files| == |flags| == |items|
    ensures var cs := Classes(sha, items, files);
            Detects(sha, items, files, flags, At(Completed, cs, |cs|),
                    alerts, alerts + Bad(items, cs, |cs|), flagged, flagged + Flagged(items, cs, flags, |cs|))
  {
    CountersTell(sha, items, files, |items|);
    AlertForEach(items, Classes(sha, items, files), |items|);
    forall id { AlertsTell(sha, items, files, flags, |items|, id); }
  }

  lemma {:induction false} AllIntact(cs: seq<Class>, k: nat)
    requires k <= |cs|
    ensures Count(cs, k, Intact) <= k
    ensures Count(cs, k, Intact) == k <==> forall i | 0 <= i < k :: cs[i] == Intact
  {
    if k > 0 {
      AllIntact(cs, k - 1);
    }
  }
}
