/** One credential card: the masked secret and its reveal toggle. */
module Card {
  import opened Text
  import opened Entries

  /** The character the mask is made of. */
  const Bullet: char := '•'

  /** `getMaskedPassword`: one bullet per character of the password. */
  function MaskedPassword(password: string): (r: string)
    ensures |r| == |password|
    ensures forall i :: 0 <= i < |r| ==> r[i] == Bullet
  {
    Repeat(Bullet, |password|)
  }

  /** The mask reveals the password's length and nothing else. */
  lemma MaskRevealsOnlyLength(p: string, q: string)
    ensures MaskedPassword(p) == MaskedPassword(q) <==> |p| == |q|
  {
    if |p| == |q| {
      assert forall i :: 0 <= i < |p| ==> MaskedPassword(p)[i] == MaskedPassword(q)[i];
    }
  }

  /** The text in the secret slot of a card: the password itself when shown, the mask otherwise. */
  function DisplayedSecret(entry: PasswordEntry, showPassword: bool): (r: string)
    ensures showPassword ==> r == entry.password
    ensures !showPassword ==> |r| == |entry.password| && forall i :: 0 <= i < |r| ==> r[i] == Bullet
  {
    if showPassword then entry.password else MaskedPassword(entry.password)
  }

  /** A hidden secret says nothing about the password beyond its length. */
  lemma HiddenSecretIndependentOfPassword(e: PasswordEntry, f: PasswordEntry)
    requires |e.password| == |f.password|
    ensures DisplayedSecret(e, false) == DisplayedSecret(f, false)
  {
    MaskRevealsOnlyLength(e.password, f.password);
  }

  /** `PasswordCard`: the entry it renders and whether its secret is revealed. */
  class PasswordCard {
    const entry: PasswordEntry
    var showPassword: bool

    /** A card starts with its secret hidden. */
    constructor (entry: PasswordEntry)
      ensures this.entry == entry && !showPassword
      ensures Displayed() == MaskedPassword(entry.password)
    {
      this.entry := entry;
      showPassword := false;
    }

    /** What the card currently shows in the secret slot. */
    function Displayed(): (r: string)
      reads this
      ensures |r| == |entry.password|
      ensures showPassword ==> r == entry.password
      ensures !showPassword ==> forall i :: 0 <= i < |r| ==> r[i] == Bullet
    {
      DisplayedSecret(entry, showPassword)
    }

    /** The eye button: flips between showing and hiding the secret. */
    method ToggleShowPassword()
      modifies this
      ensures showPassword == !old(showPassword)
      ensures Displayed() == if old(showPassword) then MaskedPassword(entry.password) else entry.password
    {
      showPassword := !showPassword;
    }
  }

  /** Pressing the eye button twice brings back what was displayed before. */
  method ToggleTwice(card: PasswordCard)
    modifies card
    ensures card.showPassword == old(card.showPassword)
    ensures card.Displayed() == old(card.Displayed())
  {
    card.ToggleShowPassword();
    card.ToggleShowPassword();
  }
}
