/** The "Add Password" dialog: four pieces of form state and their transitions. */
module Dialog {

  /** The payload handed to `onAdd`. */
  datatype NewPassword = NewPassword(website: string, username: string, password: string)

  datatype Option<T> = None | Some(value: T)

  /**
   * The submit check: a field is missing only when it is the empty string
   * (no trimming, so whitespace passes); otherwise the payload is the exact field values.
   */
  function Validate(website: string, username: string, password: string): (r: Option<NewPassword>)
    ensures r.None? <==> website == "" || username == "" || password == ""
    ensures r.Some? ==> r.value.website == website && r.value.username == username && r.value.password == password
  {
    if website == "" || username == "" || password == "" then None
    else Some(NewPassword(website, username, password))
  }

  /** Fields made only of spaces are accepted unchanged. */
  lemma WhitespaceAccepted(website: string, username: string, password: string)
    requires website != [] && username != [] && password != []
    requires forall i :: 0 <= i < |website| ==> website[i] == ' '
    requires forall i :: 0 <= i < |username| ==> username[i] == ' '
    requires forall i :: 0 <= i < |password| ==> password[i] == ' '
    ensures Validate(website, username, password) == Some(NewPassword(website, username, password))
  {
  }

  /** `AddPasswordDialog`: whether it is open and the three text fields. */
  class AddPasswordDialog {
    var open: bool
    var website: string
    var username: string
    var password: string

    /** Closed, with every field empty. */
    constructor ()
      ensures !open && website == "" && username == "" && password == ""
    {
      open := false;
      website := "";
      username := "";
      password := "";
    }

    /** `onOpenChange` (the trigger button opens, the dialog chrome closes). */
    method SetOpen(value: bool)
      modifies this
      ensures open == value
      ensures website == old(website) && username == old(username) && password == old(password)
    {
      open := value;
    }

    /** The website input's `onChange`. */
    method SetWebsite(value: string)
      modifies this
      ensures website == value
      ensures open == old(open) && username == old(username) && password == old(password)
    {
      website := value;
    }

    /** The username input's `onChange`. */
    method SetUsername(value: string)
      modifies this
      ensures username == value
      ensures open == old(open) && website == old(website) && password == old(password)
    {
      username := value;
    }

    /** The password input's `onChange`. */
    method SetPassword(value: string)
      modifies this
      ensures password == value
      ensures open == old(open) && website == old(website) && username == old(username)
    {
      password := value;
    }

    /**
     * `handleSubmit`. The result is the one `onAdd` call the submit makes, or
     * `None` when it makes none. A rejected submit changes nothing; an accepted
     * one passes the exact field values, clears the fields and closes the dialog.
     */
    method HandleSubmit() returns (added: Option<NewPassword>)
      modifies this
      ensures added == Validate(old(website), old(username), old(password))
      ensures added.None? <==> old(website) == "" || old(username) == "" || old(password) == ""
      ensures added.None? ==>
        open == old(open) && website == old(website) && username == old(username) && password == old(password)
      ensures added.Some? ==>
        added.value == NewPassword(old(website), old(username), old(password)) &&
        !open && website == "" && username == "" && password == ""
    {
      if website == "" || username == "" || password == "" {
        return None;
      }
      added := Some(NewPassword(website, username, password));
      website := "";
      username := "";
      password := "";
      open := false;
    }

    /** The Cancel button: closes the dialog and keeps what was typed. */
    method Cancel()
      modifies this
      ensures !open
      ensures website == old(website) && username == old(username) && password == old(password)
    {
      open := false;
    }
  }

  /** Cancelling and reopening brings back the typed fields: Cancel does not clear them. */
  method CancelThenReopen(dialog: AddPasswordDialog)
    modifies dialog
    ensures dialog.open
    ensures dialog.website == old(dialog.website)
    ensures dialog.username == old(dialog.username)
    ensures dialog.password == old(dialog.password)
  {
    dialog.Cancel();
    dialog.SetOpen(true);
  }

  /** A second submit right after an accepted one is rejected, since the fields are now empty. */
  method SubmitTwice(dialog: AddPasswordDialog) returns (first: Option<NewPassword>, second: Option<NewPassword>)
    modifies dialog
    ensures first.Some? ==> second.None?
  {
    first := dialog.HandleSubmit();
    second := dialog.HandleSubmit();
  }
}
