/**
  The to-do list of App.js as a value: a finite map from id to item, the
  category filter and edit-row selection of the render, the map transformations
  that the handlers perform, and the start-up load.  The handlers themselves,
  which change component state, are in module AppState.
*/
module ToDos {
  import opened DecimalKey

  datatype Option<T> = None | Some(value: T)

  /** An item id: the decimal string of the clock reading at insertion. */
  type Id = string

  /** One entry of the list; `working` is true for the Work tab, false for Travel. */
  datatype Item = Item(text: string, working: bool, done: bool)

  /** What the scroll view shows for one key: the text (struck through when done), or the edit box holding the draft. */
  datatype Row = Display(text: string, done: bool) | EditBox(draft: string)

  /** The keys the scroll view lists while the category flag is `working`. */
  function Visible(toDos: map<Id, Item>, working: bool): (keys: set<Id>)
    ensures keys <= toDos.Keys
    ensures forall k :: k in keys <==> k in toDos && toDos[k].working == working
  {
    set k | k in toDos && toDos[k].working == working
  }

  /** Every item is listed under exactly one of the two tabs. */
  lemma VisiblePartition(toDos: map<Id, Item>)
    ensures Visible(toDos, true) !! Visible(toDos, false)
    ensures Visible(toDos, true) + Visible(toDos, false) == toDos.Keys
    ensures forall k :: k in toDos ==> (k in Visible(toDos, true) <==> toDos[k].working)
  {
  }

  /** The rows of the render: one per visible key; only the row whose key is `editKey` is an edit box. */
  function Rows(toDos: map<Id, Item>, working: bool, editKey: string, edit: string): (rows: map<Id, Row>)
    ensures rows.Keys == Visible(toDos, working)
    ensures forall k :: k in rows ==> (rows[k].EditBox? <==> k == editKey)
    ensures forall k :: k in rows && k != editKey ==> rows[k] == Display(toDos[k].text, toDos[k].done)
    ensures editKey in rows ==> rows[editKey] == EditBox(edit)
    ensures forall j, k :: j in rows && k in rows && rows[j].EditBox? && rows[k].EditBox? ==> j == k
  {
    map k | k in Visible(toDos, working) :: if k == editKey then EditBox(edit) else Display(toDos[k].text, toDos[k].done)
  }

  /** With the empty edit key and no item filed under "", no row is in edit mode. */
  lemma NoEditBoxWhenIdle(toDos: map<Id, Item>, working: bool, edit: string)
    requires "" !in toDos
    ensures forall k :: k in Rows(toDos, working, "", edit) ==> Rows(toDos, working, "", edit)[k].Display?
  {
  }

  /** No item has moved to the other tab, and no item has appeared. */
  ghost predicate SameCategories(before: map<Id, Item>, after: map<Id, Item>)
  {
    after.Keys <= before.Keys && forall k :: k in after ==> after[k].working == before[k].working
  }

  /** The map after adding `text` under category `working` at clock reading `now`. */
  function Added(toDos: map<Id, Item>, now: nat, text: string, working: bool): (r: map<Id, Item>)
    ensures r.Keys == toDos.Keys + {DecimalString(now)}
    ensures r[DecimalString(now)] == Item(text, working, false)
    ensures forall k :: k in toDos && k != DecimalString(now) ==> r[k] == toDos[k]
  {
    toDos[DecimalString(now) := Item(text, working, false)]
  }

  /** The map after deleting `key`; deleting an absent key changes nothing. */
  function Removed(toDos: map<Id, Item>, key: Id): (r: map<Id, Item>)
    ensures r.Keys == toDos.Keys - {key}
    ensures forall k :: k in r ==> r[k] == toDos[k]
    ensures key !in toDos ==> r == toDos
  {
    toDos - {key}
  }

  /** The map after flipping `done` of the item at `key`. */
  function Toggled(toDos: map<Id, Item>, key: Id): (r: map<Id, Item>)
    requires key in toDos
    ensures r.Keys == toDos.Keys
    ensures r[key].text == toDos[key].text && r[key].working == toDos[key].working
    ensures r[key].done == !toDos[key].done
    ensures forall k :: k in toDos && k != key ==> r[k] == toDos[k]
  {
    toDos[key := toDos[key].(done := !toDos[key].done)]
  }

  /** The map after replacing the text of the item at `key`. */
  function Retexted(toDos: map<Id, Item>, key: Id, text: string): (r: map<Id, Item>)
    requires key in toDos
    ensures r.Keys == toDos.Keys
    ensures r[key].text == text
    ensures r[key].working == toDos[key].working && r[key].done == toDos[key].done
    ensures forall k :: k in toDos && k != key ==> r[k] == toDos[k]
  {
    toDos[key := toDos[key].(text := text)]
  }

  /** Toggling twice restores the original list. */
  lemma ToggledTwice(toDos: map<Id, Item>, key: Id)
    requires key in toDos
    ensures Toggled(Toggled(toDos, key), key) == toDos
  {
  }

  /** Toggling, editing and deleting never move an item to the other tab. */
  lemma EditsKeepCategories(toDos: map<Id, Item>, key: Id, text: string)
    ensures SameCategories(toDos, Removed(toDos, key))
    ensures key in toDos ==> SameCategories(toDos, Toggled(toDos, key))
    ensures key in toDos ==> SameCategories(toDos, Retexted(toDos, key, text))
  {
  }

  /** Hence toggling and editing leave both tabs' listings as they were, and deleting takes out only `key`. */
  lemma EditsKeepVisible(toDos: map<Id, Item>, key: Id, text: string, working: bool)
    ensures Visible(Removed(toDos, key), working) == Visible(toDos, working) - {key}
    ensures key in toDos ==> Visible(Toggled(toDos, key), working) == Visible(toDos, working)
    ensures key in toDos ==> Visible(Retexted(toDos, key, text), working) == Visible(toDos, working)
  {
  }

  /** A new item is listed under the tab that was active when it was added, and only there. */
  lemma AddedVisible(toDos: map<Id, Item>, now: nat, text: string, working: bool)
    ensures Visible(Added(toDos, now, text, working), working) == Visible(toDos, working) + {DecimalString(now)}
    ensures Visible(Added(toDos, now, text, working), !working) == Visible(toDos, !working) - {DecimalString(now)}
  {
  }

  /** Adding grows the list by one unless the key was already taken, in which case that entry is overwritten. */
  lemma AddedSize(toDos: map<Id, Item>, now: nat, text: string, working: bool)
    ensures |Added(toDos, now, text, working)| == |toDos| + (if DecimalString(now) in toDos then 0 else 1)
  {
  }

  /** A confirmed delete of a present key shrinks the list by exactly one. */
  lemma RemovedSize(toDos: map<Id, Item>, key: Id)
    requires key in toDos
    ensures |Removed(toDos, key)| == |toDos| - 1
  {
  }

  /** Two additions in the same millisecond share a key: the second overwrites the first. */
  lemma SameTickOverwrites(toDos: map<Id, Item>, now: nat, first: string, second: string, w1: bool, w2: bool)
    ensures Added(Added(toDos, now, first, w1), now, second, w2) == Added(toDos, now, second, w2)
  {
  }

  /** Additions at different clock readings keep both new items. */
  lemma {:induction false} DistinctTicksKeepBoth(toDos: map<Id, Item>, n1: nat, n2: nat, t1: string, t2: string, w1: bool, w2: bool)
    requires n1 != n2
    ensures var r := Added(Added(toDos, n1, t1, w1), n2, t2, w2);
      DecimalString(n1) in r && r[DecimalString(n1)] == Item(t1, w1, false) &&
      DecimalString(n2) in r && r[DecimalString(n2)] == Item(t2, w2, false)
  {
    DecimalStringInjective(n1, n2);
  }

  /** The list after start-up: the stored map if the storage key is present, else the empty map. */
  function LoadedToDos(stored: Option<map<Id, Item>>): (toDos: map<Id, Item>)
    ensures stored.None? ==> toDos == map[]
    ensures stored.Some? ==> toDos == stored.value
  {
    match stored
    case Some(m) => m
    case None => map[]
  }

  /** The category flag after start-up, defaulting to Work when nothing was stored. */
  function LoadedWorking(stored: Option<bool>): (working: bool)
    ensures stored.None? ==> working
    ensures stored.Some? ==> working == stored.value
  {
    if stored.Some? then stored.value else true
  }
}
