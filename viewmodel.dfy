/** The component's view state as one value, and each event handler as a
    transition from the old state to the new one. */
module ViewModel {
  import opened Optional
  import opened Seqs
  import opened Users
  import opened Draft

  datatype AuthMode = Login | Register

  datatype AuthForm = AuthForm(email: string, password: string, name: string)

  datatype ProfileForm = ProfileForm(name: string, bio: string, avatar: string)

  /** Every `useState` of the component; `chats` is never changed, so only
      its length is kept. */
  datatype ViewState = ViewState(
    activeChat: Option<string>,
    newMessage: string,
    showEmojiPicker: bool,
    isFullscreen: bool,
    isAuthenticated: bool,
    authMode: AuthMode,
    authForm: AuthForm,
    showProfileModal: bool,
    showAdminPanel: bool,
    currentUser: Option<User>,
    profileForm: ProfileForm,
    users: seq<User>,
    chatCount: nat)

  const AdminEmail: string := "himo@admin.com"
  const AdminPassword: string := "12345678"
  const DefaultName: string := "Пользователь"

  /** The state on page load. */
  function Initial(): (s: ViewState)
    ensures Find(s.users, AdminId) == Some(SeedAdmin)
    ensures !s.isAuthenticated && s.currentUser.None? && s.newMessage == "" && !HasContent(s.newMessage)
    ensures |s.users| == 1
    ensures s.authMode == Login && !Submittable(s.authForm)
  {
    ViewState(None, "", false, false, false, Login, AuthForm("", "", ""), false, false,
              None, ProfileForm("", "", ""), InitialUsers, 0)
  }

  // ---------------------------------------------------------------- composer

  /** `handleSendMessage`: a draft with content is cleared, any other is kept. */
  function SendMessage(s: ViewState): (t: ViewState)
    ensures t == s.(newMessage := t.newMessage)
    ensures (exists i :: 0 <= i < |s.newMessage| && !IsWhitespace(s.newMessage[i])) ==> t.newMessage == ""
    ensures (forall i :: 0 <= i < |s.newMessage| ==> IsWhitespace(s.newMessage[i])) ==> t == s
  {
    HasContentIff(s.newMessage);
    if HasContent(s.newMessage) then s.(newMessage := "") else s
  }

  /** `addEmoji(e)`: the old draft is a prefix of the new one, `e` the rest,
      and the picker is closed. */
  function AddEmoji(s: ViewState, e: string): (t: ViewState)
    ensures t == s.(newMessage := t.newMessage, showEmojiPicker := false)
    ensures s.newMessage <= t.newMessage && t.newMessage[|s.newMessage|..] == e
  {
    s.(newMessage := s.newMessage + e, showEmojiPicker := false)
  }

  /** The picker button at line 339. */
  function ToggleEmojiPicker(s: ViewState): (t: ViewState)
    ensures t.showEmojiPicker != s.showEmojiPicker
    ensures t == s.(showEmojiPicker := t.showEmojiPicker)
  {
    s.(showEmojiPicker := !s.showEmojiPicker)
  }

  // ---------------------------------------------------------------- navigation

  /** Clicking a chat: it becomes active and the view goes fullscreen. */
  function SelectChat(s: ViewState, chatId: string): (t: ViewState)
    ensures t.activeChat == Some(chatId) && t.isFullscreen
    ensures t == s.(activeChat := t.activeChat, isFullscreen := t.isFullscreen)
  {
    s.(activeChat := Some(chatId), isFullscreen := true)
  }

  /** The back button shown in fullscreen. */
  function LeaveFullscreen(s: ViewState): (t: ViewState)
    ensures !t.isFullscreen
    ensures t == s.(isFullscreen := t.isFullscreen)
  {
    s.(isFullscreen := false)
  }

  /** The link switching the auth screen between logging in and registering. */
  function ToggleAuthMode(s: ViewState): (t: ViewState)
    ensures t.authMode != s.authMode
    ensures t == s.(authMode := t.authMode)
  {
    s.(authMode := if s.authMode == Login then Register else Login)
  }

  // ---------------------------------------------------------------- auth gate

  /** Both auth fields are truthy (non-empty). */
  predicate Submittable(f: AuthForm) {
    f.email != "" && f.password != ""
  }

  /** The literal comparison the gate makes. */
  predicate IsAdminPair(f: AuthForm)
    ensures IsAdminPair(f) ==> Submittable(f)
  {
    f.email == AdminEmail && f.password == AdminPassword
  }

  /** The profile form filled from a record, with `bio || ''` and `avatar || ''`. */
  function ProfileOf(u: User): ProfileForm {
    ProfileForm(u.name, u.bio.GetOr(""), u.avatar.GetOr(""))
  }

  /** The record a non-admin login appends; `id` and `joinDate` stand for
      the two clock reads. */
  function NewUser(f: AuthForm, id: string, joinDate: Timestamp): (u: User)
    ensures u.id == id && u.email == f.email && u.joinDate == joinDate
    ensures u.role == Regular && u.status == Online && !IsBanned(u)
    ensures u.name != "" && (f.name != "" ==> u.name == f.name) && (f.name == "" ==> u.name == DefaultName)
    ensures u.avatar.None? && u.lastSeen.None? && u.bio.None? && u.isBanned.None?
    ensures ProfileOf(u) == ProfileForm(u.name, "", "")
  {
    User(id, if f.name == "" then DefaultName else f.name, f.email, None, Online, None, None,
         joinDate, None, Regular)
  }

  /** `handleAuth`. */
  function Auth(s: ViewState, newId: string, joinDate: Timestamp): (t: ViewState)
    // only the session fields and the table can change
    ensures t == s.(currentUser := t.currentUser, profileForm := t.profileForm,
                    isAuthenticated := t.isAuthenticated, users := t.users)
    // an empty field changes nothing
    ensures !Submittable(s.authForm) ==> t == s
    // otherwise the session is authenticated, whichever branch is taken
    ensures Submittable(s.authForm) ==> t.isAuthenticated
    // the table grows exactly for a non-admin pair
    ensures |t.users| != |s.users| <==> Submittable(s.authForm) && !IsAdminPair(s.authForm)
    // the admin pair adopts the first record with id 'admin', if there is one
    ensures Submittable(s.authForm) && IsAdminPair(s.authForm) ==>
      t.users == s.users &&
      (Find(s.users, AdminId).Some? ==>
        t.currentUser == Find(s.users, AdminId) && t.currentUser.value.id == AdminId &&
        t.currentUser.value in s.users && t.profileForm == ProfileOf(t.currentUser.value)) &&
      (Find(s.users, AdminId).None? ==> t.currentUser == s.currentUser && t.profileForm == s.profileForm)
    // any other pair appends one fresh regular user and adopts it
    ensures Submittable(s.authForm) && !IsAdminPair(s.authForm) ==>
      |t.users| == |s.users| + 1 && t.users[..|s.users|] == s.users &&
      t.currentUser == Some(t.users[|s.users|]) &&
      t.users[|s.users|].id == newId && t.users[|s.users|].email == s.authForm.email &&
      t.users[|s.users|].role == Regular && t.users[|s.users|].status == Online &&
      t.users[|s.users|].name == (if s.authForm.name == "" then DefaultName else s.authForm.name) &&
      t.users[|s.users|] == NewUser(s.authForm, newId, joinDate) &&
      t.profileForm == ProfileForm(t.users[|s.users|].name, "", "")
  {
    if !Submittable(s.authForm) then s
    else if IsAdminPair(s.authForm) then
      var adopted :=
        match Find(s.users, AdminId)
        case Some(a) => s.(currentUser := Some(a), profileForm := ProfileOf(a))
        case None => s;
      adopted.(isAuthenticated := true)
    else
      var u := NewUser(s.authForm, newId, joinDate);
      assert (s.users + [u])[..|s.users|] == s.users;
      s.(users := s.users + [u], currentUser := Some(u), profileForm := ProfileForm(u.name, "", ""),
         isAuthenticated := true)
  }

  // ---------------------------------------------------------------- profile editor

  /** `{ ...u, name, bio, avatar }` taken from the form. */
  function ApplyProfile(u: User, f: ProfileForm): (r: User)
    ensures ProfileOf(r) == f
    ensures r.bio.Some? && r.avatar.Some?
    ensures r.(name := u.name, bio := u.bio, avatar := u.avatar) == u
  {
    u.(name := f.name, bio := Some(f.bio), avatar := Some(f.avatar))
  }

  /** `handleSaveProfile`: the form is written into the session user and into
      every table entry with that user's id, and the modal is closed. */
  function SaveProfile(s: ViewState): (t: ViewState)
    ensures s.currentUser.None? ==> t == s
    ensures s.currentUser.Some? ==>
      t == s.(currentUser := t.currentUser, users := t.users, showProfileModal := false) &&
      t.currentUser.Some? && ProfileOf(t.currentUser.value) == s.profileForm &&
      t.currentUser.value.(name := s.currentUser.value.name, bio := s.currentUser.value.bio,
                           avatar := s.currentUser.value.avatar) == s.currentUser.value &&
      |t.users| == |s.users| &&
      (forall k :: 0 <= k < |s.users| && s.users[k].id == s.currentUser.value.id ==>
        t.users[k] == t.currentUser.value) &&
      (forall k :: 0 <= k < |s.users| && s.users[k].id != s.currentUser.value.id ==>
        t.users[k] == s.users[k])
  {
    match s.currentUser
    case None => s
    case Some(c) =>
      var updated := ApplyProfile(c, s.profileForm);
      s.(currentUser := Some(updated), users := ReplaceById(s.users, c.id, updated),
         showProfileModal := false)
  }

  // ---------------------------------------------------------------- admin panel

  /** `handleBanUser(id)`. */
  function BanUser(s: ViewState, id: string): (t: ViewState)
    ensures t == s.(users := t.users)
    ensures |t.users| == |s.users|
    ensures forall k :: 0 <= k < |s.users| ==>
      IsBanned(t.users[k]) == (IsBanned(s.users[k]) != (s.users[k].id == id)) &&
      t.users[k] == s.users[k].(isBanned := t.users[k].isBanned)
    ensures forall k :: 0 <= k < |s.users| && s.users[k].id != id ==> t.users[k] == s.users[k]
    ensures forall k :: 0 <= k < |s.users| && s.users[k].id == id ==> t.users[k].isBanned.Some?
  {
    s.(users := BanToggled(s.users, id))
  }

  /** `handleDeleteUser(id)`. */
  function DeleteUser(s: ViewState, id: string): (t: ViewState)
    ensures t == s.(users := t.users)
    ensures forall k :: 0 <= k < |t.users| ==> t.users[k].id != id
    ensures IsSubsequence(t.users, s.users)
    ensures |t.users| == |s.users| - Occurrences(s.users, id)
  {
    s.(users := WithoutId(s.users, id))
  }

  datatype AdminStats = AdminStats(totalUsers: nat, onlineUsers: nat, bannedUsers: nat, chats: nat)

  /** The statistics tab, counted from the current collections. */
  function Stats(s: ViewState): (st: AdminStats)
    ensures st.totalUsers == |s.users| && st.chats == s.chatCount
    ensures st.onlineUsers == Count(s.users, IsOnline) && st.bannedUsers == Count(s.users, IsBanned)
    ensures st.onlineUsers <= st.totalUsers && st.bannedUsers <= st.totalUsers
  {
    AdminStats(|s.users|, |Filter(s.users, IsOnline)|, |Filter(s.users, IsBanned)|, s.chatCount)
  }

  // ---------------------------------------------------------------- properties

  /** Sending twice is the same as sending once: a sent draft is empty. */
  lemma SendMessageIdempotent(s: ViewState)
    ensures SendMessage(SendMessage(s)) == SendMessage(s)
  {
  }

  lemma ToggleTwice(s: ViewState)
    ensures ToggleAuthMode(ToggleAuthMode(s)) == s
    ensures ToggleEmojiPicker(ToggleEmojiPicker(s)) == s
  {
  }

  /** Leaving fullscreen keeps the selected chat. */
  lemma SelectThenLeave(s: ViewState, chatId: string)
    ensures LeaveFullscreen(SelectChat(s, chatId)) == s.(activeChat := Some(chatId), isFullscreen := false)
  {
  }

  /** Saving twice is the same as saving once. */
  lemma SaveProfileIdempotent(s: ViewState)
    ensures SaveProfile(SaveProfile(s)) == SaveProfile(s)
  {
    if s.currentUser.Some? {
      var c := s.currentUser.value;
      var updated := ApplyProfile(c, s.profileForm);
      assert ApplyProfile(updated, s.profileForm) == updated;
      ReplaceByIdIdempotent(s.users, c.id, updated);
    }
  }

  /** From page load, the admin pair logs in as the seeded admin record. */
  lemma AdminLoginFromInitial(name: string, newId: string, joinDate: Timestamp)
    ensures var t := Auth(Initial().(authForm := AuthForm(AdminEmail, AdminPassword, name)), newId, joinDate);
      t.isAuthenticated && t.currentUser == Some(SeedAdmin) && t.currentUser.value.role == Admin &&
      t.users == InitialUsers && t.profileForm == ProfileForm("Himo", "Администратор системы", "")
  {
    assert Find(InitialUsers, AdminId) == Some(SeedAdmin);
  }

  /** The session user, when there is one, has a record in the table. */
  predicate CurrentListed(s: ViewState) {
    s.currentUser.Some? ==> exists k :: 0 <= k < |s.users| && s.users[k].id == s.currentUser.value.id
  }

  lemma InitialCurrentListed()
    ensures CurrentListed(Initial())
  {
  }

  lemma AuthKeepsCurrentListed(s: ViewState, newId: string, joinDate: Timestamp)
    requires CurrentListed(s)
    ensures CurrentListed(Auth(s, newId, joinDate))
  {
    var t := Auth(s, newId, joinDate);
    if Submittable(s.authForm) && !IsAdminPair(s.authForm) {
      assert t.users[|s.users|].id == t.currentUser.value.id;
    } else if Submittable(s.authForm) && Find(s.users, AdminId).Some? {
      var k :| 0 <= k < |s.users| && s.users[k] == t.currentUser.value;
      assert t.users[k].id == t.currentUser.value.id;
    }
  }

  lemma SaveProfileKeepsCurrentListed(s: ViewState)
    requires CurrentListed(s)
    ensures CurrentListed(SaveProfile(s))
  {
    var t := SaveProfile(s);
    if s.currentUser.Some? {
      var k :| 0 <= k < |s.users| && s.users[k].id == s.currentUser.value.id;
      assert t.users[k].id == t.currentUser.value.id;
    }
  }

  lemma BanUserKeepsCurrentListed(s: ViewState, id: string)
    requires CurrentListed(s)
    ensures CurrentListed(BanUser(s, id))
  {
    var t := BanUser(s, id);
    if s.currentUser.Some? {
      var k :| 0 <= k < |s.users| && s.users[k].id == s.currentUser.value.id;
      assert t.users[k].id == s.users[k].id;
    }
  }

  /** The admin panel offers deletion only for users other than the session
      user; such a deletion keeps the session user's record. */
  lemma DeleteOtherKeepsCurrentListed(s: ViewState, id: string)
    requires CurrentListed(s)
    requires s.currentUser.None? || id != s.currentUser.value.id
    ensures CurrentListed(DeleteUser(s, id))
  {
    var t := DeleteUser(s, id);
    if s.currentUser.Some? {
      var k :| 0 <= k < |s.users| && s.users[k].id == s.currentUser.value.id;
      assert s.users[k] in t.users;
      var j :| 0 <= j < |t.users| && t.users[j] == s.users[k];
      assert t.users[j].id == t.currentUser.value.id;
    }
  }

  /** Banning changes neither the total nor the online count. */
  lemma BanUserKeepsCounts(s: ViewState, id: string)
    ensures Stats(BanUser(s, id)).totalUsers == Stats(s).totalUsers
    ensures Stats(BanUser(s, id)).onlineUsers == Stats(s).onlineUsers
  {
    BanKeepsTotalAndOnline(s.users, id);
  }

  /** Deleting lowers the total by the number of records carrying the id. */
  lemma DeleteUserCount(s: ViewState, id: string)
    ensures Stats(DeleteUser(s, id)).totalUsers == Stats(s).totalUsers - Occurrences(s.users, id)
  {
  }
}
