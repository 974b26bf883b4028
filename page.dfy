/** The page: the credential list, the search term, the filtered view and the empty-state message. */
module Page {
  import opened Text
  import opened Entries
  import Dialog

  /** The two demonstration entries loaded when the page mounts; the timestamps come from the clock. */
  function MockData(now: string, dayBefore: string): (r: seq<PasswordEntry>)
    ensures |r| == 2
    ensures r[0].id == "1" && r[1].id == "2"
    ensures r[0].website == "github.com" && r[1].website == "google.com"
    ensures r[0].createdAt == now && r[1].createdAt == dayBefore
  {
    [ PasswordEntry("1", "github.com", "developer@email.com", "SecurePass123!", now),
      PasswordEntry("2", "google.com", "user@gmail.com", "MyPassword456", dayBefore) ]
  }

  /** The entry `handleAddPassword` builds: the submitted fields verbatim plus the given id and timestamp. */
  function NewEntry(id: string, createdAt: string, data: Dialog.NewPassword): (e: PasswordEntry)
    ensures e.id == id && e.createdAt == createdAt
    ensures e.website == data.website && e.username == data.username && e.password == data.password
  {
    PasswordEntry(id, data.website, data.username, data.password, createdAt)
  }

  /** `handleAddPassword` on the list: the new entry goes in front of the unchanged old list. */
  function AddPassword(passwords: seq<PasswordEntry>, id: string, createdAt: string, data: Dialog.NewPassword)
    : (r: seq<PasswordEntry>)
    ensures |r| == |passwords| + 1
    ensures r[0].id == id && r[0].createdAt == createdAt
    ensures r[0].website == data.website && r[0].username == data.username && r[0].password == data.password
    ensures r[1..] == passwords
  {
    [NewEntry(id, createdAt, data)] + passwords
  }

  /** The filter predicate: the lower-cased website or username includes the lower-cased term. */
  predicate Matches(e: PasswordEntry, term: string)
    ensures Matches(e, term) <==>
      (exists i :: OccursAt(ToLower(e.website), ToLower(term), i)) ||
      (exists j :: OccursAt(ToLower(e.username), ToLower(term), j))
  {
    Includes(ToLower(e.website), ToLower(term)) || Includes(ToLower(e.username), ToLower(term))
  }

  /** `passwords.filter(...)`: the matching entries, in list order. */
  function Filter(passwords: seq<PasswordEntry>, term: string): (r: seq<PasswordEntry>)
    ensures |r| <= |passwords|
    ensures forall e :: e in r ==> e in passwords && Matches(e, term)
  {
    if passwords == [] then []
    else (if Matches(passwords[0], term) then [passwords[0]] else []) + Filter(passwords[1..], term)
  }

  /** The positions `idx` pick `r` out of `passwords`, one entry per position, in that order. */
  ghost predicate Picks(idx: seq<int>, r: seq<PasswordEntry>, passwords: seq<PasswordEntry>)
  {
    |idx| == |r| && forall k :: 0 <= k < |idx| ==> 0 <= idx[k] < |passwords| && r[k] == passwords[idx[k]]
  }

  ghost predicate StrictlyIncreasing(idx: seq<int>)
  {
    forall k, l :: 0 <= k < l < |idx| ==> idx[k] < idx[l]
  }

  /** `idx` holds exactly the positions whose entry matches `term`. */
  ghost predicate MatchingPositions(idx: seq<int>, passwords: seq<PasswordEntry>, term: string)
  {
    forall i :: 0 <= i < |passwords| ==> (Matches(passwords[i], term) <==> i in idx)
  }

  /**
   * `r` is `passwords` restricted to the matching positions: strictly increasing
   * positions, the entries at those positions in that order, and exactly the positions whose entry matches.
   */
  ghost predicate SelectedAt(idx: seq<int>, r: seq<PasswordEntry>, passwords: seq<PasswordEntry>, term: string)
  {
    Picks(idx, r, passwords) && StrictlyIncreasing(idx) && MatchingPositions(idx, passwords, term)
  }

  /** The filter is a stable selection: the subsequence of exactly the matching positions. */
  lemma {:induction false} FilterIsStableSelection(passwords: seq<PasswordEntry>, term: string)
    ensures exists idx :: SelectedAt(idx, Filter(passwords, term), passwords, term)
  {
    if passwords == [] {
      assert SelectedAt([], Filter(passwords, term), passwords, term);
    } else {
      FilterIsStableSelection(passwords[1..], term);
      var idx' :| SelectedAt(idx', Filter(passwords[1..], term), passwords[1..], term);
      var idx := SelectionCons(passwords, term, idx');
    }
  }

  /** Every position moved one place on. */
  function Shift(idx: seq<int>): (r: seq<int>)
  {
    seq(|idx|, k requires 0 <= k < |idx| => idx[k] + 1)
  }

  /** Extends a selection of the tail by one entry in front. */
  lemma SelectionCons(passwords: seq<PasswordEntry>, term: string, idx': seq<int>) returns (idx: seq<int>)
    requires passwords != []
    requires SelectedAt(idx', Filter(passwords[1..], term), passwords[1..], term)
    ensures SelectedAt(idx, Filter(passwords, term), passwords, term)
  {
    var rest := Filter(passwords[1..], term);
    ShiftPicks(idx', rest, passwords);
    ShiftIncreasing(idx');
    ShiftMatching(idx', passwords, term);
    if Matches(passwords[0], term) {
      assert Filter(passwords, term) == [passwords[0]] + rest;
      idx := [0] + Shift(idx');
    } else {
      assert Filter(passwords, term) == rest;
      idx := Shift(idx');
    }
  }

  /** Shifting a tail selection gives a selection of the whole list, with or without the head. */
  lemma ShiftPicks(idx: seq<int>, r: seq<PasswordEntry>, passwords: seq<PasswordEntry>)
    requires passwords != [] && Picks(idx, r, passwords[1..])
    ensures Picks(Shift(idx), r, passwords)
    ensures Picks([0] + Shift(idx), [passwords[0]] + r, passwords)
  {
    var s := [0] + Shift(idx);
    var t := [passwords[0]] + r;
    forall k | 0 < k < |s|
      ensures 0 <= s[k] < |passwords| && t[k] == passwords[s[k]]
    {
      assert s[k] == idx[k - 1] + 1 && t[k] == r[k - 1];
    }
  }

  /** Shifting keeps positions increasing, also after putting position 0 in front. */
  lemma ShiftIncreasing(idx: seq<int>)
    requires StrictlyIncreasing(idx) && forall k :: 0 <= k < |idx| ==> 0 <= idx[k]
    ensures StrictlyIncreasing(Shift(idx))
    ensures StrictlyIncreasing([0] + Shift(idx))
  {
    var s := [0] + Shift(idx);
    forall k, l | 0 <= k < l < |s|
      ensures s[k] < s[l]
    {
      assert s[l] == idx[l - 1] + 1;
      if k > 0 {
        assert s[k] == idx[k - 1] + 1;
      }
    }
  }

  /** Shifting the tail's matching positions, plus 0 when the head matches, gives the whole list's. */
  lemma ShiftMatching(idx: seq<int>, passwords: seq<PasswordEntry>, term: string)
    requires passwords != [] && MatchingPositions(idx, passwords[1..], term)
    requires forall k :: 0 <= k < |idx| ==> 0 <= idx[k]
    ensures !Matches(passwords[0], term) ==> MatchingPositions(Shift(idx), passwords, term)
    ensures Matches(passwords[0], term) ==> MatchingPositions([0] + Shift(idx), passwords, term)
  {
    var shifted := Shift(idx);
    ShiftedMembership(idx, shifted);
    forall i | 1 <= i < |passwords|
      ensures Matches(passwords[i], term) <==> i in shifted
    {
      assert passwords[i] == passwords[1..][i - 1];
    }
    assert 0 !in shifted;
  }

  /** `shifted` adds one to every position of `idx`. */
  lemma ShiftedMembership(idx: seq<int>, shifted: seq<int>)
    requires |shifted| == |idx| && forall k :: 0 <= k < |idx| ==> shifted[k] == idx[k] + 1
    ensures forall i :: i in shifted <==> i - 1 in idx
  {
    forall i
      ensures i in shifted <==> i - 1 in idx
    {
      if i - 1 in idx {
        var k :| 0 <= k < |idx| && idx[k] == i - 1;
        assert shifted[k] == i;
      }
    }
  }

  /** An entry is in the filtered list exactly when it is in the list and matches. */
  lemma {:induction false} FilterMembership(passwords: seq<PasswordEntry>, term: string, e: PasswordEntry)
    ensures e in Filter(passwords, term) <==> e in passwords && Matches(e, term)
  {
    if passwords != [] {
      FilterMembership(passwords[1..], term, e);
      assert passwords == [passwords[0]] + passwords[1..];
    }
  }

  /** Membership in the filtered list, for every entry at once. */
  lemma FilterMembershipAll(passwords: seq<PasswordEntry>, term: string)
    ensures forall e :: e in Filter(passwords, term) <==> e in passwords && Matches(e, term)
  {
    forall e
      ensures e in Filter(passwords, term) <==> e in passwords && Matches(e, term)
    {
      FilterMembership(passwords, term, e);
    }
  }

  /** The empty term keeps every entry, in order. */
  lemma {:induction false} FilterEmptyTerm(passwords: seq<PasswordEntry>)
    ensures Filter(passwords, "") == passwords
  {
    if passwords != [] {
      IncludesEmpty(ToLower(passwords[0].website));
      FilterEmptyTerm(passwords[1..]);
    }
  }

  /** Filtering a concatenation filters each part. */
  lemma {:induction false} FilterAppend(a: seq<PasswordEntry>, b: seq<PasswordEntry>, term: string)
    ensures Filter(a + b, term) == Filter(a, term) + Filter(b, term)
  {
    if a != [] {
      assert (a + b)[1..] == a[1..] + b;
      FilterAppend(a[1..], b, term);
    } else {
      assert a + b == b;
    }
  }

  /** Filtering twice with the same term is filtering once. */
  lemma {:induction false} FilterIdempotent(passwords: seq<PasswordEntry>, term: string)
    ensures Filter(Filter(passwords, term), term) == Filter(passwords, term)
  {
    if passwords != [] {
      var head := if Matches(passwords[0], term) then [passwords[0]] else [];
      FilterAppend(head, Filter(passwords[1..], term), term);
      FilterIdempotent(passwords[1..], term);
    }
  }

  /** The list with every password blanked out. */
  function ErasePasswords(passwords: seq<PasswordEntry>): (r: seq<PasswordEntry>)
    ensures |r| == |passwords|
    ensures forall i :: 0 <= i < |r| ==> r[i].password == ""
    ensures forall i :: 0 <= i < |r| ==>
      r[i].id == passwords[i].id && r[i].website == passwords[i].website &&
      r[i].username == passwords[i].username && r[i].createdAt == passwords[i].createdAt
  {
    seq(|passwords|, i requires 0 <= i < |passwords| => passwords[i].(password := ""))
  }

  /**
   * The password field is never consulted: filtering the list with passwords
   * blanked out keeps the same entries as filtering the real list.
   */
  lemma {:induction false} FilterIgnoresPassword(passwords: seq<PasswordEntry>, term: string)
    ensures Filter(ErasePasswords(passwords), term) == ErasePasswords(Filter(passwords, term))
  {
    if passwords != [] {
      assert ErasePasswords(passwords)[1..] == ErasePasswords(passwords[1..]);
      FilterIgnoresPassword(passwords[1..], term);
      var head := if Matches(passwords[0], term) then [passwords[0]] else [];
      assert Filter(passwords, term) == head + Filter(passwords[1..], term);
      assert ErasePasswords(head + Filter(passwords[1..], term)) ==
             ErasePasswords(head) + ErasePasswords(Filter(passwords[1..], term));
    }
  }

  /** Upper or lower case in the term makes no difference. */
  lemma MatchesIgnoresTermCase(e: PasswordEntry, term: string)
    ensures Matches(e, ToLower(term)) == Matches(e, term)
  {
    ToLowerIdempotent(term);
  }

  /** After an add, the visible list is the new entry (when it matches) in front of the old visible list. */
  lemma FilterAfterAdd(passwords: seq<PasswordEntry>, id: string, createdAt: string, data: Dialog.NewPassword, term: string)
    ensures Filter(AddPassword(passwords, id, createdAt, data), term) ==
            (if Matches(NewEntry(id, createdAt, data), term) then [NewEntry(id, createdAt, data)] else []) +
            Filter(passwords, term)
  {
  }

  /** With an empty search, a freshly added entry is the first card shown. */
  lemma AddedEntryShownFirst(passwords: seq<PasswordEntry>, id: string, createdAt: string, data: Dialog.NewPassword)
    ensures Filter(AddPassword(passwords, id, createdAt, data), "") != []
    ensures Filter(AddPassword(passwords, id, createdAt, data), "")[0] == NewEntry(id, createdAt, data)
  {
    FilterEmptyTerm(AddPassword(passwords, id, createdAt, data));
  }

  /** The seed entries already are in lower case. */
  lemma MockDataLowerCase()
    ensures ToLower("github.com") == "github.com" && ToLower("developer@email.com") == "developer@email.com"
    ensures ToLower("google.com") == "google.com" && ToLower("user@gmail.com") == "user@gmail.com"
  {
    ToLowerOfLower("github.com");
    ToLowerOfLower("developer@email.com");
    ToLowerOfLower("google.com");
    ToLowerOfLower("user@gmail.com");
  }

  /** An entry whose website lacks one character of the term and whose username lacks another does not match. */
  lemma NoMatchWithoutChars(e: PasswordEntry, term: string, j: int, k: int)
    requires 0 <= j < |ToLower(term)| && 0 <= k < |ToLower(term)|
    requires ToLower(term)[j] !in ToLower(e.website) && ToLower(term)[k] !in ToLower(e.username)
    ensures !Matches(e, term)
  {
    MissingCharNotIncluded(ToLower(e.website), ToLower(term), j);
    MissingCharNotIncluded(ToLower(e.username), ToLower(term), k);
  }

  /** Filtering a two-entry list. */
  lemma FilterPair(x: PasswordEntry, y: PasswordEntry, term: string)
    ensures Filter([x, y], term) == (if Matches(x, term) then [x] else []) + (if Matches(y, term) then [y] else [])
  {
    assert [x, y][1..] == [y];
    assert [y][1..] == [];
  }

  /** Only the first seed entry matches "git". */
  lemma MockDataMatchesGit(now: string, dayBefore: string)
    ensures Matches(MockData(now, dayBefore)[0], "git") && !Matches(MockData(now, dayBefore)[1], "git")
  {
    var m := MockData(now, dayBefore);
    MockDataLowerCase();
    assert ToLower("git") == "git";
    assert OccursAt(ToLower(m[0].website), ToLower("git"), 0);
    NoMatchWithoutChars(m[1], "git", 2, 2);
  }

  /** The first seed entry does not match "GMAIL": its website lacks 'a', its username 'g'. */
  lemma MockDataGitHubMissesGmail(now: string, dayBefore: string)
    ensures !Matches(MockData(now, dayBefore)[0], "GMAIL")
  {
    MockDataLowerCase();
    assert ToLower("GMAIL") == "gmail";
    NoMatchWithoutChars(MockData(now, dayBefore)[0], "GMAIL", 2, 0);
  }

  /** The second seed entry matches "GMAIL" through its username. */
  lemma MockDataGoogleMatchesGmail(now: string, dayBefore: string)
    ensures Matches(MockData(now, dayBefore)[1], "GMAIL")
  {
    MockDataLowerCase();
    assert ToLower("GMAIL") == "gmail";
    assert OccursAt(ToLower(MockData(now, dayBefore)[1].username), ToLower("GMAIL"), 5);
  }

  /** Both seed entries match "com". */
  lemma MockDataMatchesCom(now: string, dayBefore: string)
    ensures Matches(MockData(now, dayBefore)[0], "com") && Matches(MockData(now, dayBefore)[1], "com")
  {
    var m := MockData(now, dayBefore);
    MockDataLowerCase();
    assert ToLower("com") == "com";
    assert OccursAt(ToLower(m[0].website), ToLower("com"), 7);
    assert OccursAt(ToLower(m[1].website), ToLower("com"), 7);
  }

  /**
   * Searching the seed data: "git" finds only the GitHub entry, "GMAIL" only the
   * Google entry (through its username), and "com" both, in list order.
   */
  lemma MockDataSearch(now: string, dayBefore: string)
    ensures Filter(MockData(now, dayBefore), "git") == [MockData(now, dayBefore)[0]]
    ensures Filter(MockData(now, dayBefore), "GMAIL") == [MockData(now, dayBefore)[1]]
    ensures Filter(MockData(now, dayBefore), "com") == MockData(now, dayBefore)
  {
    var m := MockData(now, dayBefore);
    MockDataMatchesGit(now, dayBefore);
    MockDataGitHubMissesGmail(now, dayBefore);
    MockDataGoogleMatchesGmail(now, dayBefore);
    MockDataMatchesCom(now, dayBefore);
    FilterPair(m[0], m[1], "git");
    FilterPair(m[0], m[1], "GMAIL");
    FilterPair(m[0], m[1], "com");
  }

  const TryAdjusting: string := "Try adjusting your search"
  const GetStarted: string := "Get started by adding your first password"

  /** What the list area renders: the cards, or "No passwords found" with a hint. */
  datatype ListView = Cards(entries: seq<PasswordEntry>) | NoPasswordsFound(hint: string)

  /** The list area for a list and a search term. */
  function View(passwords: seq<PasswordEntry>, searchTerm: string): (v: ListView)
    ensures v.Cards? <==> Filter(passwords, searchTerm) != []
    ensures v.Cards? ==> v.entries == Filter(passwords, searchTerm)
    ensures v.NoPasswordsFound? ==> (v.hint == TryAdjusting <==> searchTerm != "")
    ensures v.NoPasswordsFound? ==> (v.hint == GetStarted <==> searchTerm == "")
  {
    var filtered := Filter(passwords, searchTerm);
    if |filtered| == 0 then
      NoPasswordsFound(if searchTerm != "" then TryAdjusting else GetStarted)
    else
      Cards(filtered)
  }

  /** "Get started" appears exactly when the list itself is empty and nothing is searched. */
  lemma GetStartedIffEmptyList(passwords: seq<PasswordEntry>, searchTerm: string)
    ensures View(passwords, searchTerm) == NoPasswordsFound(GetStarted) <==> passwords == [] && searchTerm == ""
  {
    if searchTerm == "" {
      FilterEmptyTerm(passwords);
    }
  }

  /** "Try adjusting" appears exactly when a non-empty search matches nothing. */
  lemma TryAdjustingIffSearchMissed(passwords: seq<PasswordEntry>, searchTerm: string)
    ensures View(passwords, searchTerm) == NoPasswordsFound(TryAdjusting) <==>
            searchTerm != "" && forall e :: e in passwords ==> !Matches(e, searchTerm)
  {
    forall e | e in passwords
      ensures e in Filter(passwords, searchTerm) <==> Matches(e, searchTerm)
    {
      FilterMembership(passwords, searchTerm, e);
    }
    if Filter(passwords, searchTerm) != [] {
      assert Filter(passwords, searchTerm)[0] in Filter(passwords, searchTerm);
    }
  }

  /** The `Index` component's state: the credential list and the search box. */
  class Index {
    var passwords: seq<PasswordEntry>
    var searchTerm: string

    /** Both pieces of state start empty. */
    constructor ()
      ensures passwords == [] && searchTerm == ""
    {
      passwords := [];
      searchTerm := "";
    }

    /** The mount effect: replaces the list with the two seed entries. */
    method LoadMockData(now: string, dayBefore: string)
      modifies this
      ensures passwords == MockData(now, dayBefore)
      ensures searchTerm == old(searchTerm)
    {
      passwords := MockData(now, dayBefore);
    }

    /** `handleAddPassword`: prepends the new entry; `id` and `createdAt` are supplied by the caller. */
    method HandleAddPassword(id: string, createdAt: string, data: Dialog.NewPassword)
      modifies this
      ensures passwords == AddPassword(old(passwords), id, createdAt, data)
      ensures |passwords| == |old(passwords)| + 1 && passwords[0] == NewEntry(id, createdAt, data)
      ensures passwords[1..] == old(passwords)
      ensures searchTerm == old(searchTerm)
    {
      passwords := [NewEntry(id, createdAt, data)] + passwords;
    }

    /** The search box's `onChange`. */
    method SetSearchTerm(value: string)
      modifies this
      ensures searchTerm == value && passwords == old(passwords)
    {
      searchTerm := value;
    }

    /** `filteredPasswords`. */
    function FilteredPasswords(): (r: seq<PasswordEntry>)
      reads this
      ensures |r| <= |passwords|
      ensures forall e :: e in r <==> e in passwords && Matches(e, searchTerm)
      ensures searchTerm == "" ==> r == passwords
    {
      FilterMembershipAll(passwords, searchTerm);
      FilterEmptyTerm(passwords);
      Filter(passwords, searchTerm)
    }

    /** The list area as currently rendered. */
    function CurrentView(): (v: ListView)
      reads this
      ensures v.Cards? <==> FilteredPasswords() != []
      ensures v.Cards? ==> v.entries == FilteredPasswords()
      ensures v.NoPasswordsFound? ==> (v.hint == TryAdjusting <==> searchTerm != "")
      ensures v == NoPasswordsFound(GetStarted) <==> passwords == [] && searchTerm == ""
    {
      GetStartedIffEmptyList(passwords, searchTerm);
      var filtered := FilteredPasswords();
      if |filtered| == 0 then
        NoPasswordsFound(if searchTerm != "" then TryAdjusting else GetStarted)
      else
        Cards(filtered)
    }
  }

  /**
   * The dialog's `onAdd` wired to `handleAddPassword`: a submit that the dialog
   * accepts adds exactly one entry carrying the typed values; a rejected one leaves the list alone.
   */
  method SubmitAddDialog(page: Index, dialog: Dialog.AddPasswordDialog, id: string, createdAt: string)
    returns (added: Dialog.Option<Dialog.NewPassword>)
    modifies page, dialog
    ensures added == Dialog.Validate(old(dialog.website), old(dialog.username), old(dialog.password))
    ensures added.None? ==> page.passwords == old(page.passwords)
    ensures added.Some? ==>
      page.passwords == AddPassword(old(page.passwords), id, createdAt,
                                    Dialog.NewPassword(old(dialog.website), old(dialog.username), old(dialog.password)))
    ensures page.searchTerm == old(page.searchTerm)
    ensures added.None? ==>
      dialog.open == old(dialog.open) && dialog.website == old(dialog.website) &&
      dialog.username == old(dialog.username) && dialog.password == old(dialog.password)
    ensures added.Some? ==> !dialog.open && dialog.website == "" && dialog.username == "" && dialog.password == ""
  {
    added := dialog.HandleSubmit();
    if added.Some? {
      page.HandleAddPassword(id, createdAt, added.value);
    }
  }

  /** Mounting the page shows both seed cards, because the search starts empty. */
  method Mount(now: string, dayBefore: string) returns (page: Index)
    ensures page.passwords == MockData(now, dayBefore) && page.searchTerm == ""
    ensures page.CurrentView() == Cards(MockData(now, dayBefore))
  {
    page := new Index();
    page.LoadMockData(now, dayBefore);
    FilterEmptyTerm(page.passwords);
  }
}
