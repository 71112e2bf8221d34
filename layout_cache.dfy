/**
 * The process-wide cache of per-input-method key layouts that
 * `loadLayoutsIfNeededAsync` keeps in `TextKeyboard`'s companion object:
 * the published table (`null` until the first publish) and the modification
 * time of the file it was read from.
 *
 * One refresh is modelled as one atomic step driven by what the file system
 * and the parser report (`Environment`); the coroutine that runs it is not.
 */
module LayoutCache {

  import opened Wrappers
  import opened DisplayText

  /** One key entry of the layout file (`KeyJson`); `keyType` and `keyLabel` are the JSON fields `type` and `label`. */
  datatype KeyJson = KeyJson(
    keyType: string,
    main: Option<string>,
    alt: Option<string>,
    displayText: Option<JsonElement>,
    keyLabel: Option<string>,
    subLabel: Option<string>,
    weight: Option<real>)

  /** The rows of keys of one input method. */
  type Rows = seq<seq<KeyJson>>

  /** Input-method name to its rows. */
  type LayoutTable = map<string, Rows>

  /** `_textLayoutJsonMapFlow.value` and `lastModifiedTimestamp`. */
  datatype CacheState = CacheState(table: Option<LayoutTable>, lastModified: int)

  const Initial: CacheState := CacheState(None, 0)

  /**
   * What one refresh finds: no external files directory, no layout file, or
   * a file with its modification time and the parse of its text (`None`
   * when reading or decoding failed).
   */
  datatype Environment = DirNull | Missing | Present(mtime: int, parsed: Option<LayoutTable>)

  /** Whether the refresh reads and parses the file. */
  predicate Parses(s: CacheState, e: Environment) {
    e.Present? && (s.table.None? || s.lastModified != e.mtime)
  }

  /** Whether observers see a new value: the flow conflates an assignment of an equal table. */
  predicate Publishes(s: CacheState, r: CacheState) {
    r.table != s.table
  }

  /** One `loadLayoutsIfNeededAsync` run. */
  function Refresh(s: CacheState, e: Environment): (r: CacheState)
    // a loaded table is never unloaded; the table stays unloaded only for a missing file
    ensures r.table.None? <==> s.table.None? && e.Missing? && s.lastModified == 0
    ensures r != s ==> r.table == Some(map[]) || Parses(s, e)
  {
    match e
    case DirNull => CacheState(Some(map[]), s.lastModified)
    case Missing =>
      if s.table.Some? || s.lastModified != 0 then CacheState(Some(map[]), 0) else s
    case Present(mtime, parsed) =>
      if s.table.None? || s.lastModified != mtime then CacheState(Some(parsed.GetOr(map[])), mtime) else s
  }

  /** A sequence of refreshes, oldest first. */
  function RefreshAll(s: CacheState, es: seq<Environment>): CacheState
    decreases |es|
  {
    if es == [] then s else RefreshAll(Refresh(s, es[0]), es[1..])
  }

  /** `getTextLayoutJsonForIme`: `null` before the first publish, else the table's entry (`null` when absent). */
  function Lookup(s: CacheState, name: string): (r: Option<Rows>)
    ensures r.Some? <==> s.table.Some? && name in s.table.value
    ensures r.Some? ==> r.value == s.table.value[name]
  {
    match s.table
    case None => None
    case Some(t) => if name in t then Some(t[name]) else None
  }

  /** A missing file clears a loaded table or a remembered time, and otherwise changes nothing. */
  lemma MissingFile(s: CacheState)
    ensures s.table.Some? || s.lastModified != 0 ==> Refresh(s, Missing) == CacheState(Some(map[]), 0)
    ensures s.table.None? && s.lastModified == 0 ==> Refresh(s, Missing) == s
    ensures !Parses(s, Missing)
  {
  }

  /** Two missing-file refreshes in a row equal one, and the second publishes nothing. */
  lemma MissingFileIdempotent(s: CacheState)
    ensures Refresh(Refresh(s, Missing), Missing) == Refresh(s, Missing)
    ensures !Publishes(Refresh(s, Missing), Refresh(Refresh(s, Missing), Missing))
  {
  }

  /** A null files directory publishes an empty table and leaves the timestamp alone. */
  lemma NullFilesDir(s: CacheState)
    ensures Refresh(s, DirNull) == CacheState(Some(map[]), s.lastModified)
  {
  }

  /** A file whose time matches a loaded table is not read again. */
  lemma UnchangedFileIsNoOp(s: CacheState, mtime: int, parsed: Option<LayoutTable>)
    requires s.table.Some? && s.lastModified == mtime
    ensures Refresh(s, Present(mtime, parsed)) == s
    ensures !Parses(s, Present(mtime, parsed))
  {
  }

  /** A changed file replaces the table wholesale by its parse, or by an empty table on failure, and records its time. */
  lemma ChangedFileReplacesTable(s: CacheState, mtime: int, parsed: Option<LayoutTable>)
    requires s.table.None? || s.lastModified != mtime
    ensures Parses(s, Present(mtime, parsed))
    ensures parsed.Some? ==> Refresh(s, Present(mtime, parsed)) == CacheState(parsed, mtime)
    ensures parsed.None? ==> Refresh(s, Present(mtime, parsed)) == CacheState(Some(map[]), mtime)
  {
  }

  /**
   * Right after a refresh that found a file, the next refresh that finds
   * the same time (whatever the file would parse to now, success or
   * failure) parses nothing and changes nothing.
   */
  lemma ParsedOncePerModificationTime(s: CacheState, mtime: int, parsed: Option<LayoutTable>, again: Option<LayoutTable>)
    ensures var r := Refresh(s, Present(mtime, parsed));
      !Parses(r, Present(mtime, again)) && Refresh(r, Present(mtime, again)) == r
  {
  }

  /**
   * The guard is not once per modification time: a missing-file refresh
   * forgets the time, so the same file found again afterwards is parsed
   * again (unless its time is 0).
   */
  lemma ReparsedAfterMissingFile(s: CacheState, mtime: int, parsed: Option<LayoutTable>, again: Option<LayoutTable>)
    ensures var r := Refresh(Refresh(s, Present(mtime, parsed)), Missing);
      r == CacheState(Some(map[]), 0)
      && (mtime != 0 <==> Parses(r, Present(mtime, again)))
  {
  }

  /** Lookups after a refresh that parsed a file see exactly the parsed table. */
  lemma LookupAfterParse(s: CacheState, mtime: int, parsed: Option<LayoutTable>, name: string)
    requires Parses(s, Present(mtime, parsed))
    ensures var t := parsed.GetOr(map[]);
      Lookup(Refresh(s, Present(mtime, parsed)), name) == if name in t then Some(t[name]) else None
  {
  }

  /** After a missing-file or null-directory refresh no input method has a layout. */
  lemma LookupAfterClear(s: CacheState, e: Environment, name: string)
    requires e.Missing? || e.DirNull?
    ensures Lookup(Refresh(s, e), name) == None
  {
  }

  lemma {:induction false} StaysLoaded(s: CacheState, es: seq<Environment>)
    requires s.table.Some?
    ensures RefreshAll(s, es).table.Some?
    decreases |es|
  {
    if es != [] {
      StaysLoaded(Refresh(s, es[0]), es[1..]);
    }
  }

  /**
   * From process start the table stays `null`, so lookups return `null`,
   * exactly as long as every refresh found no file.
   */
  lemma {:induction false} UnloadedIffAllMissing(es: seq<Environment>)
    ensures RefreshAll(Initial, es).table.None? <==> forall i :: 0 <= i < |es| ==> es[i].Missing?
    ensures (forall i :: 0 <= i < |es| ==> es[i].Missing?) ==> RefreshAll(Initial, es) == Initial
    decreases |es|
  {
    if es != [] {
      if es[0].Missing? {
        assert Refresh(Initial, es[0]) == Initial;
        UnloadedIffAllMissing(es[1..]);
        assert (forall i :: 0 <= i < |es| ==> es[i].Missing?) <==> (forall i :: 0 <= i < |es[1..]| ==> es[1..][i].Missing?) by {
          forall i | 1 <= i < |es| ensures es[i] == es[1..][i - 1] { }
        }
      } else {
        StaysLoaded(Refresh(Initial, es[0]), es[1..]);
      }
    }
  }

  /**
   * A transient null files directory empties the table but keeps the
   * timestamp, so a later refresh of the same, unchanged file keeps the
   * empty table instead of reloading the file.
   */
  lemma EmptyAfterNullDirUntilFileChanges(t: LayoutTable, mtime: int, name: string)
    requires name in t
    ensures var loaded := CacheState(Some(t), mtime);
      RefreshAll(loaded, [DirNull, Present(mtime, Some(t))]) == CacheState(Some(map[]), mtime)
      && Lookup(RefreshAll(loaded, [DirNull, Present(mtime, Some(t))]), name) == None
  {
    var loaded := CacheState(Some(t), mtime);
    var es := [DirNull, Present(mtime, Some(t))];
    var cleared := Refresh(loaded, DirNull);
    assert cleared == CacheState(Some(map[]), mtime);
    assert es[1..] == [Present(mtime, Some(t))] && es[1..][1..] == [];
    assert RefreshAll(loaded, es) == RefreshAll(cleared, es[1..]);
    assert RefreshAll(cleared, es[1..]) == RefreshAll(Refresh(cleared, Present(mtime, Some(t))), []);
  }

  /**
   * The documented publish sequence: load once, refresh with the same time
   * (no parse, no publish), change the file (one publish of the new table),
   * delete it twice (one publish of the empty table).
   */
  lemma PublishScenario(t1: LayoutTable, t2: LayoutTable, m1: int, m2: int)
    requires t1 != map[] && m1 != m2 && m2 != 0
    ensures var s1 := Refresh(Initial, Present(m1, Some(t1)));
      var s2 := Refresh(s1, Present(m1, Some(t1)));
      var s3 := Refresh(s2, Present(m2, Some(t2)));
      var s4 := Refresh(s3, Missing);
      var s5 := Refresh(s4, Missing);
      && Publishes(Initial, s1) && s1.table == Some(t1)
      && !Parses(s1, Present(m1, Some(t1))) && !Publishes(s1, s2)
      && Parses(s2, Present(m2, Some(t2))) && s3 == CacheState(Some(t2), m2)
      && s4 == CacheState(Some(map[]), 0) && (t2 != map[] ==> Publishes(s3, s4))
      && !Publishes(s4, s5)
  {
  }
}
