/**
 * The summary-mark registry of the `useChapterSummaries` hook: an object from chapter id to
 * `true`, loaded once from the browser's local storage and written back in full on every mark.
 */
module ChapterSummaries {
  import opened Wrappers
  import opened JsObject
  import Json

  /** The local-storage key the registry lives under. */
  const StorageKey := "chapterSummaries"

  /** `localStorage.getItem(key)`: the stored text, or nothing. */
  function GetItem(storage: map<string, string>, key: string): Option<string> {
    if key in storage then Some(storage[key]) else None
  }

  /**
   * The registry the load effect leaves behind, starting from the empty object: the parsed
   * object when the stored text is present, non-empty and parses; the empty object otherwise
   * (the parse error is logged and swallowed).
   */
  function Loaded(saved: Option<string>): (e: Entries)
    ensures UniqueKeys(e)
  {
    if saved.Some? && saved.value != "" then
      var parsed := Json.Parse(saved.value);
      if parsed.Ok? then parsed.value else []
    else []
  }

  /** `chapterSummaries[chapterId] || false`, read off the object's own keys: only a key holding `true` marks. */
  function Has(e: Entries, id: string): (b: bool)
    ensures b ==> id in Keys(e)
    ensures UniqueKeys(e) ==> (b <==> exists i :: 0 <= i < |e| && e[i] == (id, true))
  {
    Get(e, id) == Some(true)
  }

  /** The registry after `markChapterSummary(id)`: `{ ...prev, [id]: true }`. */
  function Marked(e: Entries, id: string): (r: Entries)
    ensures Get(r, id) == Some(true)
    ensures forall k :: k != id ==> Get(r, k) == Get(e, k)
  {
    Set(e, id, true)
  }

  /** The registry after marking every id of `ids`, in order. */
  function MarkedAll(e: Entries, ids: seq<string>): Entries
    decreases |ids|
  {
    if ids == [] then e else MarkedAll(Marked(e, ids[0]), ids[1..])
  }

  /**
   * The registry as one hook instance holds it, with the browser's local storage beside it
   * (every key of it, so that what a mark leaves alone can be stated).
   */
  class Registry {
    var entries: Entries
    var storage: map<string, string>

    ghost predicate Valid()
      reads this
    {
      UniqueKeys(entries)
    }

    /** Mounting the hook: `useState({})`, then the load effect. */
    constructor (storage: map<string, string>)
      ensures Valid()
      ensures this.storage == storage
      ensures entries == Loaded(GetItem(storage, StorageKey))
    {
      this.storage := storage;
      var saved := GetItem(storage, StorageKey);
      var current: Entries := [];
      if saved.Some? && saved.value != "" {
        var parsed := Json.Parse(saved.value);
        if parsed.Ok? {
          current := parsed.value;
        }
      }
      entries := current;
    }

    /** `markChapterSummary(id)`: set the id to true and write the whole object back. */
    method MarkChapterSummary(id: string)
      requires Valid()
      modifies this
      ensures Valid()
      ensures entries == Marked(old(entries), id)
      ensures storage == old(storage)[StorageKey := Json.Stringify(entries)]
    {
      var updated := Set(entries, id, true);
      SetKeepsUnique(entries, id, true);
      storage := storage[StorageKey := Json.Stringify(updated)];
      entries := updated;
    }

    /**
     * `hasChapterSummary(id)`: true exactly for the ids the registry holds as `true`, read off
     * the object's own keys (the as-written reading of inherited names is `HasAsWritten`).
     */
    function HasChapterSummary(id: string): (b: bool)
      reads this
      requires Valid()
      ensures b <==> id in TrueKeys(entries)
    {
      HasIffTrueKey(entries, id);
      Has(entries, id)
    }
  }

  // ---------------------------------------------------------------- properties

  /** In a well-formed object, reading an id as marked means holding the pair `(id, true)`. */
  lemma HasIffTrueKey(e: Entries, id: string)
    requires UniqueKeys(e)
    ensures Has(e, id) <==> id in TrueKeys(e)
  {
    if Has(e, id) {
      var i :| 0 <= i < |e| && e[i].0 == id;
      assert e[i] == (id, true);
    }
    if id in TrueKeys(e) {
      var i :| 0 <= i < |e| && e[i] == (id, true);
      assert e[i].0 == id;
    }
  }

  /** A browser profile that never stored anything starts with no chapter marked. */
  lemma FreshProfileHasNoMarks(storage: map<string, string>, id: string)
    requires StorageKey !in storage
    ensures Loaded(GetItem(storage, StorageKey)) == []
    ensures !Has(Loaded(GetItem(storage, StorageKey)), id)
  {
  }

  /** Stored text that does not parse leaves the registry empty, whatever it holds. */
  lemma UnparseableLoadsEmpty(text: string, id: string)
    requires Json.Parse(text).Err?
    ensures Loaded(Some(text)) == [] && !Has(Loaded(Some(text)), id)
  {
  }

  /** A concrete corrupt payload: plain text. */
  lemma CorruptTextLoadsEmpty()
    ensures Loaded(Some("not json")) == []
  {
    var t := "not json";
    assert t[0] == 'n';
    Json.NoLeadingBlank(t);
    Json.NotAnObject(t);
  }

  /** What a mark persisted is exactly what a later load reads back. */
  lemma ReloadRestoresMarks(e: Entries)
    requires UniqueKeys(e)
    ensures Loaded(Some(Json.Stringify(e))) == e
  {
    Json.ParseStringify(e);
  }

  /** After marking an id it reads as marked; every other id reads as before. */
  lemma MarkSetsOnlyItsId(e: Entries, id: string, other: string)
    ensures Has(Marked(e, id), id)
    ensures other != id ==> Has(Marked(e, id), other) == Has(e, other)
  {
  }

  /** Marking an id that is already marked leaves the registry exactly as it was. */
  lemma MarkIsIdempotent(e: Entries, id: string)
    requires Has(e, id)
    ensures Marked(e, id) == e
  {
    SetSameIsIdentity(e, id, true);
  }

  /** Marking adds its id to the marked ids and removes none: the marked set only grows. */
  lemma MarkGrowsMarkedSet(e: Entries, id: string)
    requires UniqueKeys(e)
    ensures TrueKeys(Marked(e, id)) == TrueKeys(e) + {id}
  {
    var r := Marked(e, id);
    SetKeepsUnique(e, id, true);
    forall k ensures k in TrueKeys(r) <==> k in TrueKeys(e) + {id} {
      if k == id {
        assert Get(r, id) == Some(true);
        var i :| 0 <= i < |r| && r[i].0 == id;
        assert r[i] == (id, true);
      } else {
        assert Get(r, k) == Get(e, k);
        if k in TrueKeys(e) {
          var i :| 0 <= i < |e| && e[i] == (k, true);
          var j :| 0 <= j < |r| && r[j].0 == k;
          assert r[j] == (k, true);
        }
        if k in TrueKeys(r) {
          var j :| 0 <= j < |r| && r[j] == (k, true);
          var i :| 0 <= i < |e| && e[i].0 == k;
          assert e[i] == (k, true);
        }
      }
    }
  }

  /**
   * Over any run of marks: the registry stays a well-formed object, every id marked along
   * the way reads as marked, and every id marked before still does.
   */
  lemma {:induction false} MarkRunKeepsEveryMark(e: Entries, ids: seq<string>, id: string)
    requires UniqueKeys(e)
    ensures UniqueKeys(MarkedAll(e, ids))
    ensures id in ids || Has(e, id) ==> Has(MarkedAll(e, ids), id)
    decreases |ids|
  {
    if ids != [] {
      SetKeepsUnique(e, ids[0], true);
      MarkRunKeepsEveryMark(Marked(e, ids[0]), ids[1..], id);
      assert id in ids ==> id == ids[0] || id in ids[1..];
    }
  }

  // ---------------------------------------------------------------- the stored `null`

  /** What JSON.parse can hand the hook: an object, or (among the other JSON values) `null`. */
  datatype StoredValue = ObjectValue(entries: Entries) | NullValue

  predicate IsNullText(t: string) {
    var u := Json.SkipWs(t);
    |u| >= 4 && u[..4] == "null" && Json.SkipWs(u[4..]) == []
  }

  /** The load effect as written: `JSON.parse` also accepts the text `null`, and the hook stores it. */
  function LoadedAsWritten(saved: Option<string>): (v: StoredValue)
    ensures saved.Some? && IsNullText(saved.value) ==> v == NullValue
  {
    if saved.Some? && saved.value != "" then
      if IsNullText(saved.value) then NullValue
      else ObjectValue(Loaded(saved))
    else ObjectValue([])
  }

  /**
   * The names every object inherits from `Object.prototype`. Read off an object that does not
   * hold one of them as its own key, each yields a function (`__proto__` yields the prototype
   * object itself), which `|| false` takes as true.
   */
  const PrototypeNames: set<string> := {
    "constructor", "hasOwnProperty", "isPrototypeOf", "propertyIsEnumerable",
    "toLocaleString", "toString", "valueOf", "__proto__",
    "__defineGetter__", "__defineSetter__", "__lookupGetter__", "__lookupSetter__"
  }

  /** `obj[id] || false` as written: an own key gives its value, an inherited name reads as true. */
  function ReadAsWritten(e: Entries, id: string): bool {
    match Get(e, id)
    case Some(b) => b
    case None => id in PrototypeNames
  }

  /**
   * `hasChapterSummary` as written: property access on `null` throws a TypeError, and on an
   * object it walks the prototype chain.
   */
  function HasAsWritten(v: StoredValue, id: string): (r: Result<bool>)
    ensures r.Err? <==> v.NullValue?
    ensures v.ObjectValue? && id !in PrototypeNames ==> r == Ok(Has(v.entries, id))
  {
    match v
    case NullValue => Err("TypeError: Cannot read properties of null")
    case ObjectValue(e) => Ok(ReadAsWritten(e, id))
  }

  /**
   * The as-written reading and the own-key reading `Has` disagree exactly on the inherited
   * names the object does not hold itself.
   */
  lemma AsWrittenDiffersOnlyOnPrototypeNames(e: Entries, id: string)
    ensures ReadAsWritten(e, id) != Has(e, id) <==> id in PrototypeNames && Get(e, id).None?
  {
  }

  /**
   * As written, a browser profile that never stored anything reads a chapter whose id is an
   * inherited name, `constructor` say, as summarized, and the table of contents badges it.
   */
  lemma FreshProfileMarksPrototypeNameAsWritten(storage: map<string, string>, id: string)
    requires StorageKey !in storage && id in PrototypeNames
    ensures HasAsWritten(LoadedAsWritten(GetItem(storage, StorageKey)), id) == Ok(true)
  {
  }

  /** As written, a stored `null` makes every badge lookup of the table of contents throw. */
  lemma StoredNullThrowsAsWritten(id: string)
    ensures HasAsWritten(LoadedAsWritten(Some("null")), id).Err?
  {
    NullTextIsNull();
    NullTextThrowsAsWritten("null", id);
  }

  lemma NullTextIsNull()
    ensures IsNullText("null")
  {
    var t := "null";
    assert t[0] == 'n' && Json.SkipWs(t) == t;
    assert t[..4] == t && t[4..] == [];
  }

  /** Any text `JSON.parse` reads as `null`, blanks around it or not, makes the lookups throw. */
  lemma NullTextThrowsAsWritten(t: string, id: string)
    requires IsNullText(t)
    ensures HasAsWritten(LoadedAsWritten(Some(t)), id).Err?
  {
    assert t != "" by { assert |Json.SkipWs(t)| <= |t|; }
  }

  /** With the load as modelled, a stored `null` is corrupt data like any other: no id is marked. */
  lemma StoredNullLoadsEmpty(id: string)
    ensures Loaded(Some("null")) == [] && !Has(Loaded(Some("null")), id)
  {
    var t := "null";
    assert t[0] == 'n';
    Json.NoLeadingBlank(t);
    Json.NotAnObject(t);
  }
}
