/**
 * The record store: the shapes of a timesheet entry and of the persisted
 * application data, and a single storage key that is read, merged and
 * overwritten as a whole.
 */
module StorageService {
  import opened Wrappers

  /**
   * One recorded work interval. `date` is "YYYY-MM-DD", `timeIn`/`timeOut`
   * are "HH:MM", and `hours` is the text `toFixed(2)` wrote when the entry
   * was added; `day` is the short weekday name of `date`.
   */
  datatype TimesheetEntry = TimesheetEntry(
    id: int,
    date: string,
    timeIn: string,
    timeOut: string,
    breakMinutes: string,
    task: string,
    day: string,
    hours: string)

  /** The single persisted aggregate: the profile, the entry list and when it was last saved. */
  datatype AppData = AppData(
    employeeName: string,
    studentNumber: string,
    entries: seq<TimesheetEntry>,
    lastSaved: string)

  /** `Partial<AppData>`: None for a key the object does not have. */
  datatype Patch = Patch(
    employeeName: Option<string>,
    studentNumber: Option<string>,
    entries: Option<seq<TimesheetEntry>>,
    lastSaved: Option<string>)

  /** What `loadData` returns when nothing usable is stored. */
  const EmptyData: AppData := AppData("", "", [], "")

  function Pick<T>(o: Option<T>, otherwise: T): T {
    match o
    case Some(v) => v
    case None => otherwise
  }

  /**
   * `{...existing, ...patch, lastSaved: now}`: every key the patch has takes
   * the patch's value, every other key keeps the existing value, and
   * `lastSaved` is stamped whatever the patch says.
   */
  function Merge(existing: AppData, patch: Patch, now: string): (r: AppData)
    ensures r.lastSaved == now
    ensures patch.employeeName.Some? ==> r.employeeName == patch.employeeName.value
    ensures patch.studentNumber.Some? ==> r.studentNumber == patch.studentNumber.value
    ensures patch.entries.Some? ==> r.entries == patch.entries.value
    ensures patch.employeeName.None? ==> r.employeeName == existing.employeeName
    ensures patch.studentNumber.None? ==> r.studentNumber == existing.studentNumber
    ensures patch.entries.None? ==> r.entries == existing.entries
  {
    AppData(
      Pick(patch.employeeName, existing.employeeName),
      Pick(patch.studentNumber, existing.studentNumber),
      Pick(patch.entries, existing.entries),
      now)
  }

  /** Two patches applied one after the other, the later one winning on keys both have. */
  function Then(first: Patch, second: Patch): Patch {
    Patch(
      if second.employeeName.Some? then second.employeeName else first.employeeName,
      if second.studentNumber.Some? then second.studentNumber else first.studentNumber,
      if second.entries.Some? then second.entries else first.entries,
      if second.lastSaved.Some? then second.lastSaved else first.lastSaved)
  }

  /**
   * Saving two patches in turn is saving their combination once: a key set by
   * the first save survives the second unless the second sets it too.
   */
  lemma MergeTwice(d: AppData, first: Patch, second: Patch, t1: string, t2: string)
    ensures Merge(Merge(d, first, t1), second, t2) == Merge(d, Then(first, second), t2)
  {
  }

  /** Saving the same patch again changes nothing but the time stamp. */
  lemma MergeIdempotent(d: AppData, p: Patch, t1: string, t2: string)
    ensures Merge(Merge(d, p, t1), p, t2) == Merge(d, p, t2)
  {
  }

  /**
   * The persisted key. `stored` is the value held under the key, None when
   * there is none. Reading or parsing failures, and write or remove errors,
   * are outcomes of the platform given to each operation.
   */
  class Store {
    var stored: Option<AppData>

    constructor ()
      ensures stored == None
    {
      stored := None;
    }

    /** What `loadData` returns when reading and parsing succeed. */
    function Current(): (d: AppData)
      reads this
      ensures stored.None? ==> d == EmptyData
      ensures stored.Some? ==> d == stored.value
    {
      Pick(stored, EmptyData)
    }

    /**
     * `loadData`: the stored data, or the empty default when nothing is
     * stored or when reading or parsing fails; it never fails itself.
     */
    method LoadData(readFails: bool) returns (data: AppData)
      ensures readFails || stored.None? ==> data == EmptyData
      ensures !readFails && stored.Some? ==> data == stored.value
    {
      if readFails {
        data := EmptyData;
      } else if stored.Some? {
        data := stored.value;
      } else {
        data := EmptyData;
      }
    }

    /**
     * `saveData`: loads the current data, merges the patch into it, stamps
     * `lastSaved` and writes the result back in one write. A write error is
     * passed on to the caller and leaves the key as it was. A read failure is
     * swallowed by the load, so the patch is then merged into the empty default.
     */
    method SaveData(patch: Patch, now: string, readFails: bool, writeError: Option<string>)
      returns (r: Result<()>)
      modifies this
      ensures writeError.Some? ==> r == Err(writeError.value) && stored == old(stored)
      ensures writeError.None? ==> r == Ok(())
      ensures writeError.None? ==>
        stored == Some(Merge(if readFails then EmptyData else old(Current()), patch, now))
    {
      var existing := LoadData(readFails);
      var updated := Merge(existing, patch, now);
      if writeError.Some? {
        r := Err(writeError.value);
      } else {
        stored := Some(updated);
        r := Ok(());
      }
    }

    /**
     * `clearAllData`: removes the key, profile included; a remove error is
     * passed on to the caller and leaves the key as it was.
     */
    method ClearAllData(removeError: Option<string>) returns (r: Result<()>)
      modifies this
      ensures removeError.Some? ==> r == Err(removeError.value) && stored == old(stored)
      ensures removeError.None? ==> r == Ok(()) && stored == None && Current() == EmptyData
    {
      if removeError.Some? {
        r := Err(removeError.value);
      } else {
        stored := None;
        r := Ok(());
      }
    }
  }

  /**
   * Saving a name and then an entry list keeps both: the second save merges
   * into what the first one wrote instead of overwriting it.
   */
  method SaveNameThenEntries(store: Store, name: string, entries: seq<TimesheetEntry>, t1: string, t2: string)
    returns (loaded: AppData)
    modifies store
    ensures loaded.employeeName == name && loaded.entries == entries && loaded.lastSaved == t2
    ensures loaded.studentNumber == old(store.Current()).studentNumber
  {
    var _ := store.SaveData(Patch(Some(name), None, None, None), t1, false, None);
    var _ := store.SaveData(Patch(None, None, Some(entries), None), t2, false, None);
    loaded := store.LoadData(false);
  }

  /** After a successful clear, loading gives the empty default, profile included. */
  method ClearThenLoad(store: Store) returns (loaded: AppData)
    modifies store
    ensures loaded == EmptyData
  {
    var r := store.ClearAllData(None);
    loaded := store.LoadData(false);
  }

  /**
   * A read failure inside `saveData` is not reported: the patch is merged into
   * the empty default, so saving only the entries then drops the stored profile.
   */
  method SaveAfterFailedRead(store: Store, entries: seq<TimesheetEntry>, now: string)
    returns (loaded: AppData)
    modifies store
    ensures loaded == AppData("", "", entries, now)
  {
    var _ := store.SaveData(Patch(None, None, Some(entries), None), now, true, None);
    loaded := store.LoadData(false);
  }
}
