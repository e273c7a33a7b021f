/**
  The `App` component of App.js as an object: the state hooks are fields and
  every event handler is a method.  The two storage keys "@toDos" and
  "@working" are the fields `savedToDos` and `savedWorking` (None when the key
  is absent), holding the decoded value rather than its JSON text.
*/
module AppState {
  import opened DecimalKey
  import opened ToDos

  class App {
    var working: bool                    // true: Work tab, false: Travel tab
    var text: string                     // draft in the main input
    var toDos: map<Id, Item>
    var editKey: string                  // key of the row in edit mode, "" for none
    var edit: string                     // draft in the edit box
    var savedToDos: Option<map<Id, Item>>
    var savedWorking: Option<bool>

    /**
      No item is filed under the empty key (so "" can mean "no row in edit
      mode"), and the stored snapshot reloads to exactly the state in memory.
    */
    ghost predicate Valid()
      reads this
    {
      "" !in toDos &&
      LoadedToDos(savedToDos) == toDos &&
      LoadedWorking(savedWorking) == working
    }

    /** Start-up: the initial hook values, then the stored list and flag are loaded and edit mode is cleared. */
    constructor (stored: Option<map<Id, Item>>, storedWorking: Option<bool>)
      requires stored.Some? ==> "" !in stored.value
      ensures Valid()
      ensures toDos == LoadedToDos(stored) && working == LoadedWorking(storedWorking)
      ensures text == "" && editKey == "" && edit == ""
      ensures savedToDos == stored && savedWorking == storedWorking
    {
      working := true;
      text := "";
      toDos := map[];
      editKey := "";
      edit := "";
      savedToDos := stored;
      savedWorking := storedWorking;
      if stored.Some? {
        toDos := stored.value;
      }
      if storedWorking.Some? {
        working := storedWorking.value;
      }
    }

    /** Tapping the "Work" header: switch to the Work tab and store the flag. */
    method Work()
      requires Valid()
      modifies this`working, this`savedWorking
      ensures Valid()
      ensures working && savedWorking == Some(true)
    {
      working := true;
      savedWorking := Some(true);
    }

    /** Tapping the "Travel" header: switch to the Travel tab and store the flag. */
    method Travel()
      requires Valid()
      modifies this`working, this`savedWorking
      ensures Valid()
      ensures !working && savedWorking == Some(false)
    {
      working := false;
      savedWorking := Some(false);
    }

    /** Typing in the main input. */
    method ChangeText(payload: string)
      modifies this`text
      ensures text == payload
    {
      text := payload;
    }

    /** Submitting the main input at clock reading `now`: an empty draft is ignored, otherwise a new item is filed and the draft cleared. */
    method AddToDo(now: nat)
      requires Valid()
      modifies this`toDos, this`savedToDos, this`text
      ensures Valid()
      ensures old(text) == "" ==> toDos == old(toDos) && savedToDos == old(savedToDos) && text == old(text)
      ensures old(text) != "" ==> toDos == Added(old(toDos), now, old(text), working) && savedToDos == Some(toDos) && text == ""
    {
      if text == "" {
        return;
      }
      var newToDos := toDos[DecimalString(now) := Item(text, working, false)];
      toDos := newToDos;
      savedToDos := Some(newToDos);
      text := "";
    }

    /** Tapping the trash icon on `key`; `confirmed` is the user's answer to the confirmation prompt. */
    method DeleteToDo(key: Id, confirmed: bool)
      requires Valid()
      modifies this`toDos, this`savedToDos
      ensures Valid()
      ensures confirmed ==> toDos == Removed(old(toDos), key) && savedToDos == Some(toDos)
      ensures !confirmed ==> toDos == old(toDos) && savedToDos == old(savedToDos)
    {
      if confirmed {
        var newToDos := map k | k in toDos && k != key :: toDos[k];
        toDos := newToDos;
        savedToDos := Some(newToDos);
      }
    }

    /** Tapping the checkbox on `key` (only rendered rows have one, so `key` is present). */
    method CheckToDo(key: Id)
      requires Valid()
      requires key in toDos
      modifies this`toDos, this`savedToDos
      ensures Valid()
      ensures toDos == Toggled(old(toDos), key) && savedToDos == Some(toDos)
    {
      var item := toDos[key];
      var newToDos := toDos[key := Item(item.text, item.working, if item.done then false else true)];
      toDos := newToDos;
      savedToDos := Some(newToDos);
    }

    /** Tapping the pencil on `key`: that row enters edit mode, its draft seeded with the item's text. */
    method StartEdit(key: Id)
      requires key in toDos
      modifies this`editKey, this`edit
      ensures editKey == key && edit == toDos[key].text
      ensures key in Visible(toDos, working) ==> Rows(toDos, working, editKey, edit)[key] == EditBox(toDos[key].text)
    {
      editKey := key;
      edit := toDos[key].text;
    }

    /** Typing in the edit box. */
    method EditText(payload: string)
      modifies this`edit
      ensures edit == payload
    {
      edit := payload;
    }

    /**
      Submitting the edit box: an empty draft cancels, any other draft replaces
      the item's text; either way edit mode ends.  The edit box is rendered only
      for a present key, hence the precondition.
    */
    method EditToDo()
      requires Valid()
      requires edit != "" ==> editKey in toDos
      modifies this`toDos, this`savedToDos, this`editKey, this`edit
      ensures Valid()
      ensures editKey == "" && edit == ""
      ensures old(edit) == "" ==> toDos == old(toDos) && savedToDos == old(savedToDos)
      ensures old(edit) != "" ==> toDos == Retexted(old(toDos), old(editKey), old(edit)) && savedToDos == Some(toDos)
      ensures forall k :: k in Rows(toDos, working, editKey, edit) ==> Rows(toDos, working, editKey, edit)[k].Display?
    {
      if edit == "" {
        editKey := "";
        edit := "";
        return;
      }
      var item := toDos[editKey];
      var newToDos := toDos[editKey := Item(edit, item.working, item.done)];
      toDos := newToDos;
      savedToDos := Some(newToDos);
      editKey := "";
      edit := "";
    }
  }

  /**
    A first run: add "Buy milk" under Work at clock reading `now`, toggle it,
    submit an empty edit, delete it with confirmation.  Returns the item after
    each step and the final list.
  */
  method BuyMilk(now: nat) returns (added: Item, checked: Item, afterEmptyEdit: Item, final: map<Id, Item>)
    ensures added == Item("Buy milk", true, false)
    ensures checked == Item("Buy milk", true, true)
    ensures afterEmptyEdit == checked
    ensures final == map[]
  {
    var app := new App(None, None);
    var key := DecimalString(now);
    app.ChangeText("Buy milk");
    app.AddToDo(now);
    assert app.toDos.Keys == {key};
    added := app.toDos[key];
    app.CheckToDo(key);
    checked := app.toDos[key];
    app.StartEdit(key);
    app.EditText("");
    app.EditToDo();
    afterEmptyEdit := app.toDos[key];
    app.DeleteToDo(key, true);
    final := app.toDos;
    assert final.Keys == {};
  }
}
