/** The profile page: which edits may be saved and what the saved record
    holds. */
module Profile {
  import opened Text

  datatype User = User(fullName: string, email: string, username: string, accessLevel: string)

  /** The editable copy of the user; it has no access level. */
  datatype Edits = Edits(fullName: string, email: string, username: string)

  /** Which fields are open for editing. */
  datatype Editing = Editing(username: bool, email: bool)

  datatype ProfileState = ProfileState(user: User, editing: Editing, edits: Edits)

  datatype SaveError =
    | EmptyEmail       // "Email cannot be empty"
    | EmailWithoutAt   // "Please enter a valid email address containing '@'"
    | EmptyUsername    // "Username cannot be empty"

  /** The checks of `handleSave`, in order; only fields being edited are
      checked. */
  function CheckSave(editing: Editing, edits: Edits): (r: Option<SaveError>)
    ensures r == Some(EmptyEmail) <==> editing.email && IsBlank(edits.email)
    ensures r == Some(EmailWithoutAt) <==> editing.email && !IsBlank(edits.email) && '@' !in edits.email
    ensures r == Some(EmptyUsername) <==>
              (!editing.email || (!IsBlank(edits.email) && '@' in edits.email)) &&
              editing.username && IsBlank(edits.username)
    ensures r.None? ==> (editing.email ==> !IsBlank(edits.email) && '@' in edits.email) &&
                        (editing.username ==> !IsBlank(edits.username))
  {
    if editing.email && IsBlank(edits.email) then Some(EmptyEmail)
    else if editing.email && '@' !in edits.email then Some(EmailWithoutAt)
    else if editing.username && IsBlank(edits.username) then Some(EmptyUsername)
    else None
  }

  /** `updatedUser`: the edited name, e-mail and username with the stored
      access level. */
  function UpdatedUser(user: User, edits: Edits): (r: User)
    ensures r.accessLevel == user.accessLevel
    ensures r.username == edits.username && r.email == edits.email && r.fullName == edits.fullName
  {
    User(edits.fullName, edits.email, edits.username, user.accessLevel)
  }

  /** How the update request ended.  `.then(response => response.json())`
      does not look at the status, so any JSON reply counts as delivered;
      only a failed request or an unreadable body reaches the `catch`. */
  datatype SaveReply = Delivered | Unreadable

  datatype SaveAlert =
    | Invalid(error: SaveError)
    | Updated           // "Profile updated successfully"
    | UpdateFailed      // "Failed to update profile"

  datatype SaveResult = SaveResult(state: ProfileState, alert: SaveAlert)

  function Save(s: ProfileState, reply: SaveReply): (r: SaveResult)
    ensures CheckSave(s.editing, s.edits).Some? ==>
              r == SaveResult(s, Invalid(CheckSave(s.editing, s.edits).value))
    ensures r.alert == Updated <==> CheckSave(s.editing, s.edits).None? && reply == Delivered
    ensures r.alert == Updated ==>
              r.state == ProfileState(UpdatedUser(s.user, s.edits), Editing(false, false), s.edits)
    ensures r.alert != Updated ==> r.state == s
    ensures r.alert == UpdateFailed <==> CheckSave(s.editing, s.edits).None? && reply != Delivered
  {
    match CheckSave(s.editing, s.edits)
    case Some(e) => SaveResult(s, Invalid(e))
    case None =>
      if reply == Delivered then
        SaveResult(ProfileState(UpdatedUser(s.user, s.edits), Editing(false, false), s.edits), Updated)
      else SaveResult(s, UpdateFailed)
  }

  /** No save changes the access level, and a save that went through while
      the e-mail was being edited stores an address with an `@`. */
  lemma SavePreservesAccessLevel(s: ProfileState, reply: SaveReply)
    ensures Save(s, reply).state.user.accessLevel == s.user.accessLevel
    ensures Save(s, reply).alert == Updated && s.editing.email ==>
              '@' in Save(s, reply).state.user.email && !IsBlank(Save(s, reply).state.user.email)
    ensures Save(s, reply).alert == Updated && s.editing.username ==>
              !IsBlank(Save(s, reply).state.user.username)
  {
  }

  /** Saving again right after a successful save sends the same record:
      nothing is being edited any more, so no check can fail. */
  lemma SaveAgain(s: ProfileState, reply: SaveReply)
    requires Save(s, Delivered).alert == Updated
    ensures CheckSave(Save(s, Delivered).state.editing, Save(s, Delivered).state.edits).None?
    ensures Save(Save(s, Delivered).state, reply).state.user == Save(s, Delivered).state.user
  {
  }
}
