/** The profile page at the root route: it reads `login-status` from the
    origin's storage once and shows either the login prompt or the current
    user's name and email. It writes nothing, so it is a function of the
    storage and of the record the current-user hook supplies. */
module UserDetails {

  import opened Optional
  import opened WebStorage
  import Registration
  import PasswordPolicy

  /** The record `useCurrentUserDetails` hands back, by property name. How the
      hook obtains it is not part of this model. */
  type UserData = map<string, string>

  /** The branch the page renders. */
  datatype View = LoginPrompt | Profile(name: string, email: string)

  /** JavaScript truthiness of what `getItem` returned: `null` and the empty
      string are falsy. The JSON text of a record is never empty. */
  predicate IsTruthy(item: Option<StoredValue>)
    ensures IsTruthy(item) <==> item != None && item.value != Text("")
  {
    match item
    case None => false
    case Some(Text(s)) => s != ""
    case Some(Serialized(_)) => true
  }

  /** `currentUserData?.property`, which renders as nothing when the record
      or the property is missing. */
  function Shown(user: Option<UserData>, property: string): (shown: string)
    ensures shown != "" ==> user != None && property in user.value && shown == user.value[property]
    ensures user == None ==> shown == ""
  {
    match user
    case None => ""
    case Some(u) => if property in u then u[property] else ""
  }

  /** The page: the login prompt exactly when `login-status` is absent or the
      empty string; otherwise the profile with the name and email only. */
  function Render(storage: Storage, currentUser: Option<UserData>): (view: View)
    ensures view.LoginPrompt? <==> LoginStatusKey !in storage || storage[LoginStatusKey] == Text("")
    ensures view.Profile? ==> view == Profile(Shown(currentUser, "name"), Shown(currentUser, "email"))
    ensures view.Profile? && currentUser.None? ==> view == Profile("", "")
  {
    var loginStatus := GetItem(storage, LoginStatusKey);
    if !IsTruthy(loginStatus) then LoginPrompt
    else Profile(Shown(currentUser, "name"), Shown(currentUser, "email"))
  }

  /** Nothing stored under `login-status`: the prompt. */
  lemma AbsentStatusShowsPrompt(storage: Storage, currentUser: Option<UserData>)
    requires LoginStatusKey !in storage
    ensures Render(storage, currentUser) == LoginPrompt
  {
  }

  /** The gate tests truthiness, not the word: "false" opens it as "true" does,
      and the empty string keeps it shut. */
  lemma GateIsTruthiness(storage: Storage, currentUser: Option<UserData>)
    ensures Render(storage[LoginStatusKey := Text("false")], currentUser).Profile?
    ensures Render(storage[LoginStatusKey := Text("true")], currentUser).Profile?
    ensures Render(storage[LoginStatusKey := Text("")], currentUser) == LoginPrompt
  {
  }

  /** Properties other than `name` and `email` (phone, photo, password) never
      reach the page: two records that agree on those two render alike. */
  lemma ProfileShowsOnlyNameAndEmail(storage: Storage, a: UserData, b: UserData)
    requires ("name" in a <==> "name" in b) && ("name" in a ==> a["name"] == b["name"])
    requires ("email" in a <==> "email" in b) && ("email" in a ==> a["email"] == b["email"])
    ensures Render(storage, Some(a)) == Render(storage, Some(b))
  {
  }

  /** A registration whose upload returns a display URL and whose password
      passes leaves the gate open, whatever storage held before and whatever
      the hook returns. */
  lemma RegistrationOpensGate(st: Registration.PageState, photo: Option<string>, form: Registration.FormValues,
                              currentUser: Option<UserData>)
    requires st.selectedImage.Some?
    requires PasswordPolicy.IsValidPassword(form.password)
    ensures var after := Registration.Run(st, Registration.SignUpEffects(st.selectedImage, Registration.Url(photo), form));
            Render(after.storage, currentUser) == Profile(Shown(currentUser, "name"), Shown(currentUser, "email"))
  {
    Registration.SignUpAccepted(st, photo, form);
  }
}
