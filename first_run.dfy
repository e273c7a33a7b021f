/**
  The category flag on a first run.  App.js:50-53 sets the flag to
  `JSON.parse(getItem("@working"))`; when the key is absent that is
  `JSON.parse(null)`, i.e. `null`, not a boolean.  Items added before the first
  tab tap are then filed with `working: null`, and after a tap the flag is a
  boolean forever (it is stored), so those items are never listed again.
  This module models the start-up load as written and exhibits that; module
  ToDos uses the intended default (Work, the hook's initial value) instead.
*/
module FirstRun {
  import opened DecimalKey
  import opened ToDos

  /** A value `JSON.parse` can give for the stored flag. */
  datatype JsFlag = JsBool(b: bool) | JsNull

  /** The flag after start-up as written: an absent key parses to null. */
  function LoadWorkingAsWritten(stored: Option<bool>): (flag: JsFlag)
    ensures stored.None? <==> flag == JsNull
    ensures stored.Some? ==> flag == JsBool(stored.value)
  {
    match stored
    case Some(b) => JsBool(b)
    case None => JsNull
  }

  /** An item as App.js files it: `working` is whatever value the flag held. */
  datatype StoredItem = StoredItem(text: string, working: JsFlag, done: bool)

  /** The keys listed while the flag is `flag`, compared with strict equality. */
  function VisibleAsWritten(toDos: map<Id, StoredItem>, flag: JsFlag): (keys: set<Id>)
    ensures keys <= toDos.Keys
  {
    set k | k in toDos && toDos[k].working == flag
  }

  /**
    On a first run, an item added before any tab tap is listed while the flag
    is null, but under neither tab once a tab has been tapped, and not after
    any later start-up that reloads the tapped value.
  */
  lemma FirstRunItemOrphaned(now: nat, text: string, tapped: bool)
    ensures var flag := LoadWorkingAsWritten(None);
      var toDos := map[DecimalString(now) := StoredItem(text, flag, false)];
      && DecimalString(now) in VisibleAsWritten(toDos, flag)
      && VisibleAsWritten(toDos, JsBool(true)) == {}
      && VisibleAsWritten(toDos, JsBool(false)) == {}
      && VisibleAsWritten(toDos, LoadWorkingAsWritten(Some(tapped))) == {}
  {
  }

  /**
    With the intended default the same first-run item is filed under Work and
    listed there; by VisiblePartition every item is on exactly one tab.
  */
  lemma FirstRunItemOnWorkTab(now: nat, text: string)
    ensures DecimalString(now) in Visible(Added(map[], now, text, LoadedWorking(None)), true)
    ensures Visible(Added(map[], now, text, LoadedWorking(None)), false) == {}
  {
  }
}
