/** Running the integrity job over a store that only the services have touched. */
module StoreVerification {
  import opened Common
  import opened Texts
  import opened EvidenceNames
  import opened EvidenceTables
  import opened EvidenceStore
  import opened IntegrityJob

  /** Items listed from live rows, and what readable objects give for them. */
  ghost predicate Lists(s: State, items: seq<Item>, files: seq<Read>) {
    && |files| == |items|
    && forall i | 0 <= i < |items| ::
         && Live(s, items[i].id)
         && items[i].key == s.rows[items[i].id].key && items[i].hash == s.rows[items[i].id].hash
         && files[i] == if items[i].key in s.objects then Content(s.objects[items[i].key]) else Unreadable
  }

  /** An untouched item is intact, or missing exactly when its file was taken by a cleanup. */
  lemma ItemClass(sha: Bytes -> string, s: State, items: seq<Item>, files: seq<Read>, i: nat)
    requires StoreInv(sha, s) && Lists(s, items, files) && i < |items|
    ensures ClassOf(sha, items[i], files[i]) == if items[i].key in s.stranded then Missing else Intact
  {
    assert Backed(sha, s, items[i].id) <==> items[i].key !in s.stranded;
  }

  lemma CountsDecide(cs: seq<Class>, missing: seq<bool>)
    requires |missing| == |cs| && forall i | 0 <= i < |cs| :: cs[i] == if missing[i] then Missing else Intact
    ensures Count(cs, |cs|, Mismatch) == 0
    ensures Count(cs, |cs|, Intact) == |cs| <==> forall i | 0 <= i < |cs| :: !missing[i]
  {
    NoneOf(cs, |cs|, Mismatch);
    AllIntact(cs, |cs|);
  }

  /** After any interleaving of uploads, destructions and thumbnail jobs with any failures, a readable store
      never shows a mismatch, and everything verifies exactly when no listed row lost its file to the
      cleanup of its own upload. */
  lemma UntamperedStoreVerifiesIff(sha: Bytes -> string, steps: seq<Step>, items: seq<Item>, files: seq<Read>)
    requires CanRun(sha, START, steps) && Lists(Run(sha, START, steps), items, files)
    ensures var cs, n := Classes(sha, items, files), |items|;
            && Count(cs, n, Mismatch) == 0
            && (Count(cs, n, Intact) == n <==> forall i | 0 <= i < n :: items[i].key !in Run(sha, START, steps).stranded)
  {
    RunKeepsStoreInv(sha, START, steps);
    StoreCounts(sha, Run(sha, START, steps), items, files);
  }

  lemma StoreCounts(sha: Bytes -> string, s: State, items: seq<Item>, files: seq<Read>)
    requires StoreInv(sha, s) && Lists(s, items, files)
    ensures var cs, n := Classes(sha, items, files), |items|;
            && Count(cs, n, Mismatch) == 0
            && (Count(cs, n, Intact) == n <==> forall i | 0 <= i < n :: items[i].key !in s.stranded)
  {
    var cs := Classes(sha, items, files);
    var missing := seq(|items|, i requires 0 <= i < |items| => items[i].key in s.stranded);
    forall i | 0 <= i < |items| ensures cs[i] == if missing[i] then Missing else Intact {
      ItemClass(sha, s, items, files, i);
    }
    CountsDecide(cs, missing);
    assert forall i | 0 <= i < |items| :: missing[i] <==> items[i].key in s.stranded;
  }

  /** A live row whose file no cleanup took, read from objects that need not be those of the run. */
  ghost predicate ReadFrom(s: State, objects: map<ObjectKey, Bytes>, item: Item, file: Read) {
    && Live(s, item.id) && item.key == s.rows[item.id].key && item.hash == s.rows[item.id].hash
    && item.key !in s.stranded
    && file == if item.key in objects then Content(objects[item.key]) else Unreadable
  }

  lemma ReadAsRecorded(sha: Bytes -> string, s: State, objects: map<ObjectKey, Bytes>, item: Item, file: Read)
    requires StoreInv(sha, s) && ReadFrom(s, objects, item, file)
    ensures item.key in s.objects
    ensures file.Content? && sha(file.data) == item.hash <==>
            item.key in objects && sha(objects[item.key]) == sha(s.objects[item.key])
  {
    assert Backed(sha, s, item.id);
  }

  lemma AlteredAlerted(sha: Bytes -> string, s: State, objects: map<ObjectKey, Bytes>,
                       items: seq<Item>, files: seq<Read>, flags: seq<Outcome>, id: UUID)
    requires StoreInv(sha, s) && |files| == |items| == |flags|
    requires forall i | 0 <= i < |items| :: ReadFrom(s, objects, items[i], files[i])
    ensures forall i | 0 <= i < |items| :: items[i].key in s.objects
    ensures id in Bad(items, Classes(sha, items, files), |items|) <==> exists i ::
              0 <= i < |items| && items[i].id == id
              && !(items[i].key in objects && sha(objects[items[i].key]) == sha(s.objects[items[i].key]))
  {
    AlertsTell(sha, items, files, flags, |items|, id);
    forall i | 0 <= i < |items| { ReadAsRecorded(sha, s, objects, items[i], files[i]); }
  }

  /** Whatever has since been done to the store behind the services' back: an item is alerted exactly when some
      listed file of it is gone or no longer has the digest of the bytes that were stored. */
  lemma AlertedIffAltered(sha: Bytes -> string, steps: seq<Step>, s: State, objects: map<ObjectKey, Bytes>,
                          items: seq<Item>, files: seq<Read>, flags: seq<Outcome>, id: UUID)
    requires CanRun(sha, START, steps) && s == Run(sha, START, steps) && |files| == |items| == |flags|
    requires forall i | 0 <= i < |items| :: ReadFrom(s, objects, items[i], files[i])
    ensures forall i | 0 <= i < |items| :: items[i].key in s.objects
    ensures id in Bad(items, Classes(sha, items, files), |items|) <==> exists i ::
              0 <= i < |items| && items[i].id == id
              && !(items[i].key in objects && sha(objects[items[i].key]) == sha(s.objects[items[i].key]))
  {
    RunKeepsStoreInv(sha, START, steps);
    AlteredAlerted(sha, s, objects, items, files, flags, id);
  }

  lemma {:induction false} NoneOf(cs: seq<Class>, k: nat, c: Class)
    requires k <= |cs| && forall i | 0 <= i < k :: cs[i] != c
    ensures Count(cs, k, c) == 0
  {
    if k > 0 {
      NoneOf(cs, k - 1, c);
    }
  }

  /** If no creation was reported failed after taking effect, the job ends with everything verified. */
  lemma HonestStoreVerifies(sha: Bytes -> string, steps: seq<Step>, items: seq<Item>, files: seq<Read>)
    requires CanRun(sha, START, steps) && Lists(Run(sha, START, steps), items, files) && HonestCreates(steps)
    ensures var cs := Classes(sha, items, files); At(Completed, cs, |cs|) == Snapshot(Completed, |items|, |items|, 0, 0)
  {
    HonestRunStrandsNothing(sha, START, steps);
    UntamperedStoreVerifiesIff(sha, steps, items, files);
    ClassesPartition(Classes(sha, items, files), |items|);
  }
}
