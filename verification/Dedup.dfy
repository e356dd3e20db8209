/** Idempotency of inbound messages: a bounded, persistent window of the ids already handled (src/inbound_dedup.rs). */
module Dedup {
  import opened Prelude
  import opened Text

  const MAX_IDS: nat := 2000

  function Ids(order: seq<string>): set<string> {
    set id | id in order
  }

  /** The ids of a stored list, each once, where it first stands. */
  function Deduped(ids: seq<string>, k: nat): (order: seq<string>)
    requires k <= |ids|
    ensures forall x :: x in order <==> x in ids[..k]
  {
    if k == 0 then []
    else
      var before := Deduped(ids, k - 1);
      assert ids[..k] == ids[..k - 1] + [ids[k - 1]];
      if ids[k - 1] in before then before else before + [ids[k - 1]]
  }

  /** A call's id, trimmed; blank ids cannot be told apart. */
  function Key(id: Option<string>): Option<string> {
    if id.None? || Trim(id.value) == "" then None else Some(Trim(id.value))
  }

  /** The window after a call, and its answer. */
  function Recorded(order: seq<string>, id: Option<string>): seq<string> {
    match Key(id)
    case None => order
    case Some(k) => if k in order then order else Newest(order + [k], MAX_IDS)
  }

  /** The process's store and the file it is written to. `loaded` is false until the first call after a start. */
  class DedupStore {
    var loaded: bool
    var seen: set<string>
    var order: seq<string>
    var disk: seq<string>

    ghost predicate Valid()
      reads this
    {
      loaded ==> seen == Ids(order) && NoRepeats(order)
    }

    /** The window the next call will work on. */
    ghost function Window(): seq<string>
      reads this
    {
      if loaded then order else Deduped(disk, |disk|)
    }

    constructor (disk: seq<string>)
      ensures Valid() && !loaded && this.disk == disk
    {
      loaded, seen, order := false, {}, [];
      this.disk := disk;
    }

    /** A restart forgets everything but the file. */
    method Restart()
      modifies this
      ensures Valid() && !loaded && disk == old(disk)
    {
      loaded, seen, order := false, {}, [];
    }

    method Load()
      modifies this
      ensures Valid() && loaded && disk == old(disk) && order == Deduped(disk, |disk|)
    {
      seen, order := {}, [];
      for i := 0 to |disk|
        invariant disk == old(disk) && order == Deduped(disk, i) && seen == Ids(order) && NoRepeats(order)
      {
        var id := disk[i];
        if id !in seen {
          seen := seen + {id};
          order := order + [id];
        }
      }
      loaded := true;
    }

    method Persist()
      modifies this`disk
      ensures disk == order
    {
      disk := order;
    }

    /** Record `id` as processed and say whether it was already seen. */
    method IsDuplicate(id: Option<string>) returns (duplicate: bool)
      requires Valid()
      modifies this
      ensures Valid() && Window() == Recorded(old(Window()), id)
      ensures duplicate <==> Key(id).Some? && Key(id).value in old(Window())
      ensures Key(id).None? ==> loaded == old(loaded) && disk == old(disk)
      ensures Key(id).Some? ==> loaded && disk == if duplicate then old(disk) else order
    {
      hide Trim, Deduped;
      if id.None? || Trim(id.value) == "" {
        return false;
      }
      var key := Trim(id.value);
      if !loaded {
        Load();
      }
      if key in seen {
        return true;
      }
      seen := seen + {key};
      order := order + [key];
      Evict();
      Persist();
      DedupedSame(disk, |disk|);
      return false;
    }

    /** Drop the oldest ids beyond the window's size. */
    method Evict()
      requires Valid() && loaded
      modifies this`seen, this`order
      ensures Valid() && order == Newest(old(order), MAX_IDS)
    {
      ghost var longer := order;
      while |order| > MAX_IDS
        invariant seen == Ids(order) && NoRepeats(order)
        invariant |order| <= |longer| && order == longer[|longer| - |order|..]
        invariant |order| >= MAX_IDS || order == longer
      {
        var oldest := order[0];
        assert order == [oldest] + order[1..];
        order := order[1..];
        seen := seen - {oldest};
      }
    }
  }

  // ----- runs of calls and restarts -----

  datatype Event = Call(id: Option<string>) | Restart

  /** The window and the file, as values. */
  datatype State = State(window: seq<string>, disk: seq<string>)

  function After(s: State, e: Event): State {
    match e
    case Restart => State(Deduped(s.disk, |s.disk|), s.disk)
    case Call(id) =>
      var window := Recorded(s.window, id);
      State(window, if Key(id).Some? && Key(id).value !in s.window then window else s.disk)
  }

  /** After the first `k` events of a process that starts on the file `disk`. */
  function AfterAll(disk: seq<string>, events: seq<Event>, k: nat): State
    requires k <= |events|
  {
    if k == 0 then State(Deduped(disk, |disk|), disk) else After(AfterAll(disk, events, k - 1), events[k - 1])
  }

  /** The answer the k-th event gets, if it is a call. */
  function Answer(disk: seq<string>, events: seq<Event>, k: nat): bool
    requires k < |events|
  {
    events[k].Call? && Key(events[k].id).Some? && Key(events[k].id).value in AfterAll(disk, events, k).window
  }

  /** The ids the first `k` events recorded as new, oldest first, restarts or not. */
  function NewIds(disk: seq<string>, events: seq<Event>, k: nat): seq<string>
    requires k <= |events|
  {
    if k == 0 then []
    else
      var e := events[k - 1];
      NewIds(disk, events, k - 1)
      + if e.Call? && Key(e.id).Some? && !Answer(disk, events, k - 1) then [Key(e.id).value] else []
  }

  /** The unbounded history: the ids of the first file, and every id recorded as new since. */
  function History(disk: seq<string>, events: seq<Event>, k: nat): seq<string>
    requires k <= |events|
  {
    Deduped(disk, |disk|) + NewIds(disk, events, k)
  }

  /**
   * The part of the history the store remembers: the newest `MAX_IDS` ids; only before the first new id is a longer
   * file, which the store itself never writes, still remembered in full.
   */
  function Remembered(disk: seq<string>, events: seq<Event>, k: nat): seq<string>
    requires k <= |events|
  {
    if NewIds(disk, events, k) == [] then Deduped(disk, |disk|) else Newest(History(disk, events, k), MAX_IDS)
  }

  lemma {:induction false} DedupedSame(ids: seq<string>, k: nat)
    requires k <= |ids| && NoRepeats(ids)
    ensures Deduped(ids, k) == ids[..k]
    decreases k
  {
    if k > 0 {
      DedupedSame(ids, k - 1);
      assert ids[..k] == ids[..k - 1] + [ids[k - 1]];
      assert ids[k - 1] !in ids[..k - 1];
    }
  }

  lemma RecordedKeeps(order: seq<string>, id: Option<string>)
    requires NoRepeats(order)
    ensures NoRepeats(Recorded(order, id)) && (|order| <= MAX_IDS ==> |Recorded(order, id)| <= MAX_IDS)
    ensures Recorded(order, id) == order || |Recorded(order, id)| <= MAX_IDS
  {
    hide Key;
  }

  lemma {:induction false} DedupedHasNoRepeats(ids: seq<string>, k: nat)
    requires k <= |ids|
    ensures NoRepeats(Deduped(ids, k))
    decreases k
  {
    if k > 0 {
      DedupedHasNoRepeats(ids, k - 1);
    }
  }

  lemma LoadsSame(order: seq<string>)
    requires NoRepeats(order)
    ensures Deduped(order, |order|) == order
  {
    DedupedSame(order, |order|);
    assert order[..|order|] == order;
  }

  /** Whatever file it starts on, the window is the remembered part of the history, and the file loads back to it. */
  lemma {:induction false} WindowIsNewest(disk: seq<string>, events: seq<Event>, k: nat)
    requires k <= |events|
    ensures AfterAll(disk, events, k).window == Remembered(disk, events, k)
    ensures NoRepeats(AfterAll(disk, events, k).window)
    ensures Deduped(AfterAll(disk, events, k).disk, |AfterAll(disk, events, k).disk|)
        == AfterAll(disk, events, k).window
    decreases k
  {
    hide Key, NoRepeats, Newest, Deduped, Recorded;
    if k == 0 {
      DedupedHasNoRepeats(disk, |disk|);
    } else {
      WindowIsNewest(disk, events, k - 1);
      EventKeepsWindow(disk, events, k - 1);
    }
  }

  lemma EventKeepsWindow(disk: seq<string>, events: seq<Event>, k: nat)
    requires k < |events|
    requires AfterAll(disk, events, k).window == Remembered(disk, events, k)
        && NoRepeats(AfterAll(disk, events, k).window)
    requires Deduped(AfterAll(disk, events, k).disk, |AfterAll(disk, events, k).disk|)
        == AfterAll(disk, events, k).window
    ensures AfterAll(disk, events, k + 1).window == Remembered(disk, events, k + 1)
    ensures NoRepeats(AfterAll(disk, events, k + 1).window)
    ensures Deduped(AfterAll(disk, events, k + 1).disk, |AfterAll(disk, events, k + 1).disk|)
         == AfterAll(disk, events, k + 1).window
  {
    hide Key, NoRepeats, Newest, Deduped;
    var before, e, h := AfterAll(disk, events, k), events[k], History(disk, events, k);
    if e.Call? && Key(e.id).Some? && Key(e.id).value !in before.window {
      var key := Key(e.id).value;
      RecordedKeeps(before.window, e.id);
      NewestGrows(h, [key], MAX_IDS);
      LoadsSame(Recorded(before.window, e.id));
      assert NewIds(disk, events, k + 1) == NewIds(disk, events, k) + [key];
      assert History(disk, events, k + 1) == h + [key];
      if NewIds(disk, events, k) == [] {
        assert h == Deduped(disk, |disk|);
      }
    } else {
      assert NewIds(disk, events, k + 1) == NewIds(disk, events, k);
    }
  }

  /**
   * Over any sequence of calls and restarts, from any file, a call is called a duplicate exactly when its trimmed,
   * non-empty id is remembered; from a file the store wrote that is the last `MAX_IDS` ids of the history.
   */
  lemma DuplicateMeansRecent(disk: seq<string>, events: seq<Event>, k: nat)
    requires k < |events| && events[k].Call?
    ensures Answer(disk, events, k) <==>
      Key(events[k].id).Some? && Key(events[k].id).value in Remembered(disk, events, k)
    ensures |Deduped(disk, |disk|)| <= 2000 ==>
              Remembered(disk, events, k) == Newest(History(disk, events, k), 2000)
  {
    hide Key, Deduped;
    WindowIsNewest(disk, events, k);
    assert Deduped(disk, |disk|) + [] == Deduped(disk, |disk|);
  }

  /** The window, the set beside it and the file stay within the bound, from a file that is. */
  lemma {:induction false} WindowIsBounded(disk: seq<string>, events: seq<Event>, k: nat)
    requires k <= |events| && |Deduped(disk, |disk|)| <= MAX_IDS
    ensures |AfterAll(disk, events, k).window| <= MAX_IDS
    decreases k
  {
    hide Deduped;
    WindowIsNewest(disk, events, k);
  }

  /**
   * So an id that was new is a duplicate until `MAX_IDS` other ids have been recorded, whatever restarts come
   * between.
   */
  lemma SecondCopyIsCaught(disk: seq<string>, events: seq<Event>, i: nat, k: nat)
    requires i < k < |events| && events[i].Call? && events[k].Call? && Key(events[i].id).Some?
    requires Key(events[i].id) == Key(events[k].id) && !Answer(disk, events, i)
    requires |NewIds(disk, events, k)| < |NewIds(disk, events, i)| + 2000
    ensures Answer(disk, events, k)
  {
    hide Key, AfterAll, Newest, Deduped, Answer, NewIds, Remembered;
    NewIdsGrow(disk, events, i + 1, k);
    NewIdIsRecorded(disk, events, i);
    var d, before, key := Deduped(disk, |disk|), NewIds(disk, events, i), Key(events[i].id).value;
    AppendedAt(d, before, NewIds(disk, events, k), key);
    NewestHolds(History(disk, events, k), |d| + |before|, MAX_IDS);
    RemembersNewest(disk, events, k);
    DuplicateMeansRecent(disk, events, k);
  }

  lemma RemembersNewest(disk: seq<string>, events: seq<Event>, k: nat)
    requires k <= |events| && NewIds(disk, events, k) != []
    ensures Remembered(disk, events, k) == Newest(History(disk, events, k), MAX_IDS)
  {
    hide Newest, NewIds;
  }

  lemma NewIdIsRecorded(disk: seq<string>, events: seq<Event>, i: nat)
    requires i < |events| && events[i].Call? && Key(events[i].id).Some? && !Answer(disk, events, i)
    ensures NewIds(disk, events, i + 1) == NewIds(disk, events, i) + [Key(events[i].id).value]
  {
    hide Key, Answer;
  }

  lemma AppendedAt(d: seq<string>, before: seq<string>, after: seq<string>, key: string)
    requires before + [key] <= after
    ensures |d| + |before| < |d + after| && (d + after)[|d| + |before|] == key
  {
  }

  lemma NewestHolds(h: seq<string>, i: nat, n: nat)
    requires i < |h| <= i + n
    ensures h[i] in Newest(h, n)
  {
    var window := Newest(h, n);
    assert window[i - (|h| - |window|)] == h[i];
  }

  lemma {:induction false} NewIdsGrow(disk: seq<string>, events: seq<Event>, i: nat, k: nat)
    requires i <= k <= |events|
    ensures NewIds(disk, events, i) <= NewIds(disk, events, k)
    decreases k
  {
    hide Key, Answer;
    if i < k {
      NewIdsGrow(disk, events, i, k - 1);
      assert NewIds(disk, events, k - 1) <= NewIds(disk, events, k);
    }
  }

  /** A run of the store itself, from any file. */
  method RunStore(disk: seq<string>, events: seq<Event>) returns (answers: seq<bool>)
    ensures |answers| == |events|
    ensures forall k :: 0 <= k < |events| ==> answers[k] == Answer(disk, events, k)
  {
    hide Key, Recorded, Deduped, NoRepeats;
    var store := new DedupStore(disk);
    answers := [];
    for k := 0 to |events|
      invariant fresh(store) && store.Valid()
      invariant State(store.Window(), store.disk) == AfterAll(disk, events, k)
      invariant |answers| == k && forall j :: 0 <= j < k ==> answers[j] == Answer(disk, events, j)
    {
      var answer := Serve(store, events[k]);
      answers := answers + [answer];
    }
  }

  /** One event at the store. */
  method Serve(store: DedupStore, e: Event) returns (answer: bool)
    requires store.Valid()
    modifies store
    ensures store.Valid()
    ensures State(store.Window(), store.disk) == After(old(State(store.Window(), store.disk)), e)
    ensures answer <==> e.Call? && Key(e.id).Some? && Key(e.id).value in old(store.Window())
  {
    hide Key, Deduped, Recorded, NoRepeats;
    match e {
      case Restart =>
        store.Restart();
        return false;
      case Call(id) =>
        answer := store.IsDuplicate(id);
    }
  }

  /** Ids are told apart by what stands between the spaces around them; blank and missing ones are not told at all. */
  lemma KeyIsTrimmed(before: string, id: string, after: string)
    requires AllSpace(before) && AllSpace(after)
    ensures Tight(id) ==> Key(Some(before + id + after)) == Some(id)
    ensures Key(Some(before)) == None && Key(None) == None
  {
    if Tight(id) {
      TrimPeels(before, id, after);
    }
    TrimStartPeels(before, "");
    assert before + "" == before;
  }
}
