/** The `Index` component's state hooks as the fields of one object, and its
    event handlers as methods that overwrite those fields in the order the
    component's setters are called. Each method is proved to perform the
    matching transition of `ViewModel`. */
module Store {
  import opened Optional
  import opened Users
  import opened Draft
  import opened ViewModel

  class ViewStore {
    var activeChat: Option<string>
    var newMessage: string
    var showEmojiPicker: bool
    var isFullscreen: bool
    var isAuthenticated: bool
    var authMode: AuthMode
    var authForm: AuthForm
    var showProfileModal: bool
    var showAdminPanel: bool
    var currentUser: Option<User>
    var profileForm: ProfileForm
    var users: seq<User>
    /** `chats.length`; the chat list is never changed. */
    const chatCount: nat

    /** The fields read as one view-state value. */
    function State(): ViewState
      reads this
    {
      ViewState(activeChat, newMessage, showEmojiPicker, isFullscreen, isAuthenticated, authMode,
                authForm, showProfileModal, showAdminPanel, currentUser, profileForm, users, chatCount)
    }

    constructor ()
      ensures State() == Initial()
    {
      activeChat := None;
      newMessage := "";
      showEmojiPicker := false;
      isFullscreen := false;
      isAuthenticated := false;
      authMode := Login;
      authForm := AuthForm("", "", "");
      showProfileModal := false;
      showAdminPanel := false;
      currentUser := None;
      profileForm := ProfileForm("", "", "");
      users := InitialUsers;
      chatCount := 0;
    }

    method HandleSendMessage()
      modifies this
      ensures State() == SendMessage(old(State()))
    {
      if HasContent(newMessage) {
        newMessage := "";
      }
    }

    method AddEmoji(emoji: string)
      modifies this
      ensures State() == ViewModel.AddEmoji(old(State()), emoji)
    {
      newMessage := newMessage + emoji;
      showEmojiPicker := false;
    }

    /** `newId` and `joinDate` are the values of `Date.now().toString()` and
        `new Date()` at the moment of the call. */
    method HandleAuth(newId: string, joinDate: Timestamp)
      modifies this
      ensures State() == Auth(old(State()), newId, joinDate)
    {
      if authForm.email != "" && authForm.password != "" {
        if authForm.email == AdminEmail && authForm.password == AdminPassword {
          var adminUser := Find(users, AdminId);
          if adminUser.Some? {
            currentUser := adminUser;
            profileForm := ProfileOf(adminUser.value);
          }
        } else {
          var newUser := NewUser(authForm, newId, joinDate);
          users := users + [newUser];
          currentUser := Some(newUser);
          profileForm := ProfileForm(newUser.name, "", "");
        }
        isAuthenticated := true;
      }
    }

    method HandleSaveProfile()
      modifies this
      ensures State() == SaveProfile(old(State()))
    {
      if currentUser.Some? {
        var updatedUser := ApplyProfile(currentUser.value, profileForm);
        var id := currentUser.value.id;
        currentUser := Some(updatedUser);
        users := ReplaceById(users, id, updatedUser);
        showProfileModal := false;
      }
    }

    method HandleBanUser(userId: string)
      modifies this
      ensures State() == BanUser(old(State()), userId)
    {
      users := BanToggled(users, userId);
    }

    method HandleDeleteUser(userId: string)
      modifies this
      ensures State() == DeleteUser(old(State()), userId)
    {
      users := WithoutId(users, userId);
    }

    method SelectChat(chatId: string)
      modifies this
      ensures State() == ViewModel.SelectChat(old(State()), chatId)
    {
      activeChat := Some(chatId);
      isFullscreen := true;
    }

    method LeaveFullscreen()
      modifies this
      ensures State() == ViewModel.LeaveFullscreen(old(State()))
    {
      isFullscreen := false;
    }

    method ToggleAuthMode()
      modifies this
      ensures State() == ViewModel.ToggleAuthMode(old(State()))
    {
      authMode := if authMode == Login then Register else Login;
    }

    method ToggleEmojiPicker()
      modifies this
      ensures State() == ViewModel.ToggleEmojiPicker(old(State()))
    {
      showEmojiPicker := !showEmojiPicker;
    }

    // The input and dialog bindings: each writes one field.

    method EditDraft(text: string)
      modifies this
      ensures State() == old(State()).(newMessage := text)
    {
      newMessage := text;
    }

    method EditAuthEmail(email: string)
      modifies this
      ensures State() == old(State()).(authForm := old(authForm).(email := email))
    {
      authForm := authForm.(email := email);
    }

    method EditAuthPassword(password: string)
      modifies this
      ensures State() == old(State()).(authForm := old(authForm).(password := password))
    {
      authForm := authForm.(password := password);
    }

    method EditAuthName(name: string)
      modifies this
      ensures State() == old(State()).(authForm := old(authForm).(name := name))
    {
      authForm := authForm.(name := name);
    }

    method EditProfileName(name: string)
      modifies this
      ensures State() == old(State()).(profileForm := old(profileForm).(name := name))
    {
      profileForm := profileForm.(name := name);
    }

    method EditProfileBio(bio: string)
      modifies this
      ensures State() == old(State()).(profileForm := old(profileForm).(bio := bio))
    {
      profileForm := profileForm.(bio := bio);
    }

    method EditProfileAvatar(avatar: string)
      modifies this
      ensures State() == old(State()).(profileForm := old(profileForm).(avatar := avatar))
    {
      profileForm := profileForm.(avatar := avatar);
    }

    /** Opening (the profile button), cancelling or dismissing the profile dialog. */
    method SetProfileModal(open: bool)
      modifies this
      ensures State() == old(State()).(showProfileModal := open)
    {
      showProfileModal := open;
    }

    /** Opening (the admin button) or dismissing the admin dialog. */
    method SetAdminPanel(open: bool)
      modifies this
      ensures State() == old(State()).(showAdminPanel := open)
    {
      showAdminPanel := open;
    }
  }
}
