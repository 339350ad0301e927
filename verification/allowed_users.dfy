/**
 * The interactive maintenance script for the list of usernames allowed to
 * use the VSCode extension (responses-api-server/manage_allowed_users.py):
 * the checks a new name must pass and the removal by menu number. The
 * terminal prompts become parameters and the JSON file is the list itself;
 * `saved` says whether writing it back succeeded.
 */
module AllowedUsers {
  import opened Common

  /** Why `add_allowed_user` stopped, or that it added the name. */
  datatype AddOutcome = Added | EmptyName | AlreadyAllowed | TooShort | BadFirstChar | BadChar | SaveFailed

  predicate IsNameChar(c: char) {
    IsAsciiAlnum(c) || c == '_'
  }

  /** A name the script accepts: 3+ characters, a letter first, then letters, digits or '_'. */
  predicate AcceptableName(n: string) {
    |n| >= 3 && IsAsciiLetter(n[0]) && forall i :: 0 <= i < |n| ==> IsNameChar(n[i])
  }

  /** The checks of `add_allowed_user` on the normalized name, in source order. */
  function CheckName(users: seq<string>, name: string): (outcome: AddOutcome)
    ensures outcome == Added <==> name !in users && AcceptableName(name)
    ensures outcome == EmptyName <==> name == ""
    ensures outcome == AlreadyAllowed <==> name != "" && name in users
    ensures outcome in {Added, EmptyName, AlreadyAllowed, TooShort, BadFirstChar, BadChar}
  {
    if name == "" then EmptyName
    else if name in users then AlreadyAllowed
    else if |name| < 3 then TooShort
    else if !IsAsciiLetter(name[0]) then BadFirstChar
    else if !(forall i :: 0 <= i < |name| ==> IsNameChar(name[i])) then BadChar
    else Added
  }

  /**
   * `add_allowed_user`: the input is stripped and lowercased, then checked;
   * an accepted name is appended and the list written back.
   */
  function AddAllowedUser(users: seq<string>, input: string, saved: bool): (res: (seq<string>, AddOutcome))
    ensures var name := Lower(Strip(input));
      && (res.1 == Added <==> name !in users && AcceptableName(name) && saved)
      && (res.1 == Added ==> res.0 == users + [name])
      && (res.1 != Added ==> res.0 == users)
      && (res.1 == EmptyName <==> name == "")
      && (res.1 == AlreadyAllowed <==> name != "" && name in users)
  {
    var name := Lower(Strip(input));
    var checked := CheckName(users, name);
    if checked != Added then (users, checked)
    else if !saved then (users, SaveFailed)
    else (users + [name], Added)
  }

  /** Every stored name is acceptable and none appears twice. */
  predicate WellKept(users: seq<string>) {
    && (forall i :: 0 <= i < |users| ==> AcceptableName(users[i]))
    && (forall i, j :: 0 <= i < j < |users| ==> users[i] != users[j])
  }

  lemma AppendKeepsWellKept(users: seq<string>, name: string)
    requires WellKept(users) && name !in users && AcceptableName(name)
    ensures WellKept(users + [name])
  {
    var users' := users + [name];
    forall i, j | 0 <= i < j < |users'|
      ensures users'[i] != users'[j]
    {
      if j == |users| {
        assert users'[i] == users[i];
      }
    }
  }

  /** Adding through the script keeps the list well kept. */
  lemma AddKeepsWellKept(users: seq<string>, input: string, saved: bool)
    requires WellKept(users)
    ensures WellKept(AddAllowedUser(users, input, saved).0)
  {
    if AddAllowedUser(users, input, saved).1 == Added {
      AppendKeepsWellKept(users, Lower(Strip(input)));
    }
  }

  /** Python's `int(text)` for the menu number: None is the ValueError. */
  datatype RemoveOutcome = Removed(name: string) | NothingToRemove | Cancelled | InvalidChoice | NotANumber | RemoveSaveFailed

  /**
   * `remove_allowed_user`: the typed number is 1-based; a number in range
   * and a confirming "y" remove exactly that entry.
   */
  function RemoveAllowedUser(users: seq<string>, entered: Option<int>, confirm: string, saved: bool): (res: (seq<string>, RemoveOutcome))
    ensures res.1.Removed? <==>
      && users != [] && entered.Some? && 1 <= entered.value <= |users| && Lower(Strip(confirm)) == "y" && saved
    ensures res.1.Removed? ==>
      var c := entered.value - 1;
      res.1.name == users[c] && res.0 == users[..c] + users[c + 1..]
    ensures !res.1.Removed? ==> res.0 == users
  {
    if users == [] then (users, NothingToRemove)
    else match entered
      case None => (users, NotANumber)
      case Some(n) =>
        var choice := n - 1;
        if !(0 <= choice < |users|) then (users, InvalidChoice)
        else if Lower(Strip(confirm)) != "y" then (users, Cancelled)
        else if !saved then (users, RemoveSaveFailed)
        else (users[..choice] + users[choice + 1..], Removed(users[choice]))
  }

  /** Position i of the list without entry c is position i, or i + 1 from c on, of the list. */
  lemma RemoveAtIndex(users: seq<string>, c: int)
    requires 0 <= c < |users|
    ensures var users' := users[..c] + users[c + 1..];
      |users'| == |users| - 1 && forall i :: 0 <= i < |users'| ==> users'[i] == users[if i < c then i else i + 1]
  {
  }

  lemma RemoveAtProperties(users: seq<string>, c: int)
    requires WellKept(users) && 0 <= c < |users|
    ensures var users' := users[..c] + users[c + 1..];
      WellKept(users') && multiset(users') + multiset{users[c]} == multiset(users) && users[c] !in users'
  {
    var users' := users[..c] + users[c + 1..];
    RemoveAtIndex(users, c);
    forall i, j | 0 <= i < j < |users'|
      ensures users'[i] != users'[j]
    {
      assert users'[i] == users[if i < c then i else i + 1];
      assert users'[j] == users[if j < c then j else j + 1];
    }
    forall i | 0 <= i < |users'|
      ensures users'[i] != users[c]
    {
      assert users'[i] == users[if i < c then i else i + 1];
    }
    assert users == users[..c] + [users[c]] + users[c + 1..];
    assert multiset(users) == multiset(users[..c]) + multiset{users[c]} + multiset(users[c + 1..]);
  }

  /** Removal takes out one copy of the chosen name and nothing else, and keeps the list well kept. */
  lemma RemoveTakesOneName(users: seq<string>, entered: Option<int>, confirm: string, saved: bool)
    requires WellKept(users)
    ensures var (users', outcome) := RemoveAllowedUser(users, entered, confirm, saved);
      && WellKept(users')
      && (outcome.Removed? ==> multiset(users') + multiset{outcome.name} == multiset(users) && outcome.name !in users')
  {
    if RemoveAllowedUser(users, entered, confirm, saved).1.Removed? {
      RemoveAtProperties(users, entered.value - 1);
    }
  }
}
