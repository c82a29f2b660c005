/** The registration page: choosing a profile picture, the label that shows
    its name, and the submit sequence (upload the picture, check the password,
    store the user and the login flag, go to the profile route).

    The POST to the image host is not modelled; its outcome is an input of the
    submit handler. */
module Registration {

  import opened Optional
  import opened EcmaRegex
  import opened PasswordPolicy
  import opened WebStorage

  /** A file from the picture input's file list. */
  datatype File = File(name: string)

  /** How the upload settled, as seen by the submit handler. */
  datatype UploadOutcome =
    | Failure                          // rejected, or a body without `data.data`: both end in `.catch`
    | EmptyBody                        // resolved with a falsy `res.data`: the handler stops silently
    | Url(displayUrl: Option<string>)  // `res.data.data.display_url`; `None` when `data.data` lacks it

  /** The form's field values, read when the upload has resolved. */
  datatype FormValues = FormValues(name: string, email: string, phone: string, password: string)

  datatype ToastKind = SuccessToast | ErrorToast

  /** One action of the submit handler, in the order it takes them. */
  datatype Effect =
    | UploadRequested(file: File)
    | PasswordMessageSet(message: Option<string>)
    | StorageWritten(key: string, value: StoredValue)
    | ToastShown(kind: ToastKind)
    | NavigatedTo(path: string)

  /** The page's state, the origin's storage and the router's target. */
  datatype PageState = PageState(
    selectedImage: Option<File>,
    selectedImageName: string,
    passwordErrorMessage: Option<string>,
    storage: Storage,
    navigation: Option<string>)

  const ProfileRoute: string := "/"

  predicate Writes(e: Effect, key: string) {
    e.StorageWritten? && e.key == key
  }

  /** What one action does to the state. */
  function Step(st: PageState, e: Effect): PageState {
    match e
    case UploadRequested(_) => st
    case PasswordMessageSet(m) => st.(passwordErrorMessage := m)
    case StorageWritten(k, v) => st.(storage := st.storage[k := v])
    case ToastShown(_) => st
    case NavigatedTo(path) => st.(navigation := Some(path))
  }

  /** The state after a sequence of actions, taken first to last. */
  function Run(st: PageState, effs: seq<Effect>): PageState
    decreases |effs|
  {
    if effs == [] then st else Step(Run(st, effs[..|effs| - 1]), effs[|effs| - 1])
  }

  /** The record stored for a successful registration: the form's values
      and the display URL, absent when the host's body had none. */
  function NewUser(photo: Option<string>, form: FormValues): (user: UserRecord)
    ensures user.photo == photo
    ensures FormValues(user.name, user.email, user.phone, user.password) == form
  {
    UserRecord(form.name, form.email, photo, form.phone, form.password)
  }

  /** The actions one submit takes, given the picture selected when the form
      is submitted, how the upload settles and the form's values. */
  function SignUpEffects(image: Option<File>, outcome: UploadOutcome, form: FormValues): (effs: seq<Effect>)
    ensures effs == [] <==> image.None?
    ensures image.Some? ==> effs[0] == UploadRequested(image.value)
  {
    match image
    case None => []
    case Some(file) => [UploadRequested(file)] + ResponseEffects(outcome, form)
  }

  /** The actions of the upload's `.then` and `.catch` callbacks. */
  function ResponseEffects(outcome: UploadOutcome, form: FormValues): (effs: seq<Effect>)
    ensures effs == [] <==> outcome.EmptyBody?
    ensures outcome.Failure? <==> effs == [ToastShown(ErrorToast)]
    ensures outcome.Url? ==> effs[0] == PasswordMessageSet(None)
  {
    match outcome
    case Failure => [ToastShown(ErrorToast)]
    case EmptyBody => []
    case Url(photo) =>
      [PasswordMessageSet(None)] +
      if !Test(PasswordPattern, form.password) then
        [PasswordMessageSet(Some(PasswordErrorText))]
      else
        [ StorageWritten(UserDataKey, Serialized(NewUser(photo, form))),
          StorageWritten(LoginStatusKey, Text(BooleanToString(true))),
          ToastShown(SuccessToast),
          NavigatedTo(ProfileRoute) ]
  }

  /** The label beside the picture input: the file name cut to 25 characters
      followed by "....", the whole name when it is shorter, and a prompt when
      no name is selected. */
  const LabelPrompt: string := "Choose your profile picture"

  function FileLabel(name: string): (shown: string)
    ensures shown != ""
    ensures |shown| <= 29
    ensures name != "" ==> name[..if |name| > 25 then 25 else |name|] <= shown
    ensures 0 < |name| <= 25 ==> shown == name
    ensures |name| > 25 ==> |shown| == 29 && shown[25..] == "...."
    ensures name == "" ==> shown == LabelPrompt
  {
    if |name| > 25 then name[..25] + "...." else if name != "" then name else LabelPrompt
  }

  /** Names longer than 25 characters that agree on their first 25 are shown
      alike. */
  lemma LongNamesShareLabel(a: string, b: string)
    requires |a| > 25 && |b| > 25 && a[..25] == b[..25]
    ensures FileLabel(a) == FileLabel(b)
  {
  }

  /** One more action is one more step. */
  lemma RunSnoc(st: PageState, effs: seq<Effect>, e: Effect)
    ensures Run(st, effs + [e]) == Step(Run(st, effs), e)
  {
    assert (effs + [e])[..|effs|] == effs;
  }

  /** Running `a` and then `b` is running `a + b`. */
  lemma {:induction false} RunAppend(st: PageState, a: seq<Effect>, b: seq<Effect>)
    ensures Run(st, a + b) == Run(Run(st, a), b)
    decreases |b|
  {
    if b == [] {
      assert a + b == a;
    } else {
      var n := |b| - 1;
      assert (a + b)[..|a + b| - 1] == a + b[..n];
      RunAppend(st, a, b[..n]);
    }
  }

  /** No action touches the picture or its name. */
  lemma {:induction false} RunKeepsSelection(st: PageState, effs: seq<Effect>)
    ensures Run(st, effs).selectedImage == st.selectedImage
    ensures Run(st, effs).selectedImageName == st.selectedImageName
    decreases |effs|
  {
    if effs != [] {
      RunKeepsSelection(st, effs[..|effs| - 1]);
    }
  }

  /** A key no action writes keeps its entry. */
  lemma {:induction false} RunKeepsUnwrittenKey(st: PageState, effs: seq<Effect>, key: string)
    requires forall i :: 0 <= i < |effs| ==> !Writes(effs[i], key)
    ensures GetItem(Run(st, effs).storage, key) == GetItem(st.storage, key)
    decreases |effs|
  {
    if effs != [] {
      var n := |effs| - 1;
      assert forall i :: 0 <= i < n ==> effs[..n][i] == effs[i];
      RunKeepsUnwrittenKey(st, effs[..n], key);
    }
  }

  /** The response callbacks change no state when the upload did not produce
      a display URL. */
  lemma RunResponseNotOk(st: PageState, outcome: UploadOutcome, form: FormValues)
    requires !outcome.Url?
    ensures Run(st, ResponseEffects(outcome, form)) == st
  {
    assert ResponseEffects(outcome, form)[..0] == [];
  }

  /** Storage is written, and the page leaves, only for a body with
      `data.data` and a password the pattern accepts. */
  lemma ResponseWrites(outcome: UploadOutcome, form: FormValues)
    ensures forall i :: 0 <= i < |ResponseEffects(outcome, form)| && ResponseEffects(outcome, form)[i].StorageWritten? ==>
              outcome.Url? && Test(PasswordPattern, form.password)
    ensures NavigatedTo(ProfileRoute) in ResponseEffects(outcome, form) <==> outcome.Url? && Test(PasswordPattern, form.password)
  {
    if outcome.Url? {
      if Test(PasswordPattern, form.password) {
        AcceptedResponse(outcome.displayUrl, form);
      } else {
        RejectedResponse(outcome.displayUrl, form);
      }
    }
  }

  /** The error toast answers a failed upload; the fixed message answers a
      refused password. */
  lemma ResponseMessages(outcome: UploadOutcome, form: FormValues)
    ensures ToastShown(ErrorToast) in ResponseEffects(outcome, form) <==> outcome.Failure?
    ensures PasswordMessageSet(Some(PasswordErrorText)) in ResponseEffects(outcome, form) <==>
              outcome.Url? && !Test(PasswordPattern, form.password)
  {
    if outcome.Failure? {
      assert ResponseEffects(outcome, form) == [ToastShown(ErrorToast)];
    } else if outcome.Url? {
      if Test(PasswordPattern, form.password) {
        AcceptedResponse(outcome.displayUrl, form);
      } else {
        RejectedResponse(outcome.displayUrl, form);
      }
    }
  }

  /** The actions of the callbacks when the pattern refuses the password. */
  lemma RejectedResponse(photo: Option<string>, form: FormValues)
    requires !Test(PasswordPattern, form.password)
    ensures ResponseEffects(Url(photo), form) == [PasswordMessageSet(None), PasswordMessageSet(Some(PasswordErrorText))]
  {
  }

  /** The state the response callbacks leave when the pattern refuses the password. */
  lemma RunResponseRejected(st: PageState, photo: Option<string>, form: FormValues)
    requires !Test(PasswordPattern, form.password)
    ensures Run(st, ResponseEffects(Url(photo), form)) == st.(passwordErrorMessage := Some(PasswordErrorText))
  {
    var effs := ResponseEffects(Url(photo), form);
    RejectedResponse(photo, form);
    assert effs[..1][..0] == [];
    assert Run(st, effs[..1]) == st.(passwordErrorMessage := None);
  }

  /** The actions of the callbacks when the pattern accepts the password. */
  lemma AcceptedResponse(photo: Option<string>, form: FormValues)
    requires Test(PasswordPattern, form.password)
    ensures ResponseEffects(Url(photo), form) ==
      [PasswordMessageSet(None)] + [StorageWritten(UserDataKey, Serialized(NewUser(photo, form)))]
      + [StorageWritten(LoginStatusKey, Text("true"))] + [ToastShown(SuccessToast)] + [NavigatedTo(ProfileRoute)]
  {
  }

  /** The state the response callbacks leave when the pattern accepts the password. */
  lemma RunResponseAccepted(st: PageState, photo: Option<string>, form: FormValues)
    requires Test(PasswordPattern, form.password)
    ensures Run(st, ResponseEffects(Url(photo), form)) ==
      st.(passwordErrorMessage := None,
          storage := st.storage[UserDataKey := Serialized(NewUser(photo, form))][LoginStatusKey := Text("true")],
          navigation := Some(ProfileRoute))
  {
    var user := Serialized(NewUser(photo, form));
    var cleared := [PasswordMessageSet(None)];
    var stored := cleared + [StorageWritten(UserDataKey, user)];
    var flagged := stored + [StorageWritten(LoginStatusKey, Text("true"))];
    var toasted := flagged + [ToastShown(SuccessToast)];
    AcceptedResponse(photo, form);
    RunSnoc(st, [], PasswordMessageSet(None));
    assert [] + cleared == cleared;
    RunSnoc(st, cleared, StorageWritten(UserDataKey, user));
    RunSnoc(st, stored, StorageWritten(LoginStatusKey, Text("true")));
    RunSnoc(st, flagged, ToastShown(SuccessToast));
    RunSnoc(st, toasted, NavigatedTo(ProfileRoute));
  }

  /** The state a submit leaves is the state its response callbacks leave:
      posting the picture changes no state. */
  lemma RunSignUp(st: PageState, file: File, outcome: UploadOutcome, form: FormValues)
    requires st.selectedImage == Some(file)
    ensures Run(st, SignUpEffects(st.selectedImage, outcome, form)) == Run(st, ResponseEffects(outcome, form))
  {
    RunAppend(st, [UploadRequested(file)], ResponseEffects(outcome, form));
    assert [UploadRequested(file)][..0] == [];
  }

  /** Submitting when no picture was ever selected takes no action: no upload,
      no message, no storage write, no navigation. */
  lemma SignUpWithoutImage(st: PageState, outcome: UploadOutcome, form: FormValues)
    requires st.selectedImage == None
    ensures SignUpEffects(st.selectedImage, outcome, form) == []
    ensures Run(st, SignUpEffects(st.selectedImage, outcome, form)) == st
  {
  }

  /** When the upload fails or resolves without a body, the picture has been
      posted but nothing else happens, whatever the password: the message,
      the storage and the navigation stay as they were. Only a failure shows
      the error toast. */
  lemma SignUpUploadNotOk(st: PageState, outcome: UploadOutcome, form: FormValues)
    requires st.selectedImage.Some? && !outcome.Url?
    ensures var effs := SignUpEffects(st.selectedImage, outcome, form);
      && |effs| > 0 && effs[0] == UploadRequested(st.selectedImage.value)
      && Run(st, effs) == st
      && (forall i :: 0 <= i < |effs| ==>
            !effs[i].PasswordMessageSet? && !effs[i].StorageWritten? && !effs[i].NavigatedTo?)
      && (ToastShown(ErrorToast) in effs <==> outcome.Failure?)
  {
    RunSignUp(st, st.selectedImage.value, outcome, form);
    RunResponseNotOk(st, outcome, form);
  }

  /** A password the pattern refuses, after a successful upload, leaves the
      fixed error message and changes nothing else: no storage write, no
      navigation. */
  lemma SignUpRejected(st: PageState, photo: Option<string>, form: FormValues)
    requires st.selectedImage.Some? && !IsValidPassword(form.password)
    ensures var effs := SignUpEffects(st.selectedImage, Url(photo), form);
      && Run(st, effs) == st.(passwordErrorMessage := Some(PasswordErrorText))
      && (forall i :: 0 <= i < |effs| ==> !effs[i].StorageWritten? && !effs[i].NavigatedTo?)
  {
    PatternMatchesPolicy(form.password);
    RunSignUp(st, st.selectedImage.value, Url(photo), form);
    RunResponseRejected(st, photo, form);
  }

  /** A password the pattern accepts, after a successful upload, clears the
      message, stores the record with the picture's display URL under
      `user-data` and "true" under `login-status`, whatever they held, and
      goes to the profile route. */
  lemma SignUpAccepted(st: PageState, photo: Option<string>, form: FormValues)
    requires st.selectedImage.Some? && IsValidPassword(form.password)
    ensures var effs := SignUpEffects(st.selectedImage, Url(photo), form);
      && Run(st, effs) == st.(
           passwordErrorMessage := None,
           storage := st.storage[UserDataKey := Serialized(NewUser(photo, form))]
                                [LoginStatusKey := Text("true")],
           navigation := Some(ProfileRoute))
      && ToastShown(SuccessToast) in effs
  {
    PatternMatchesPolicy(form.password);
    RunSignUp(st, st.selectedImage.value, Url(photo), form);
    RunResponseAccepted(st, photo, form);
  }

  /** A submit writes no storage key other than `user-data` and `login-status`. */
  lemma SignUpWritesOnlySessionKeys(st: PageState, outcome: UploadOutcome, form: FormValues, key: string)
    requires key != UserDataKey && key != LoginStatusKey
    ensures GetItem(Run(st, SignUpEffects(st.selectedImage, outcome, form)).storage, key)
         == GetItem(st.storage, key)
  {
    RunKeepsUnwrittenKey(st, SignUpEffects(st.selectedImage, outcome, form), key);
  }

  /** Where an action stands in the handler's sequence. */
  function Phase(e: Effect): nat {
    match e
    case UploadRequested(_) => 0
    case PasswordMessageSet(_) => 1
    case StorageWritten(k, _) => if k == UserDataKey then 2 else 3
    case ToastShown(_) => 4
    case NavigatedTo(_) => 5
  }

  /** The upload comes first, then the password message, then the record,
      then the login flag, then the toast, then the navigation. */
  lemma SignUpInSourceOrder(st: PageState, outcome: UploadOutcome, form: FormValues)
    ensures var effs := SignUpEffects(st.selectedImage, outcome, form);
      && (effs != [] ==> st.selectedImage.Some? && effs[0] == UploadRequested(st.selectedImage.value))
      && forall i, j :: 0 <= i < j < |effs| ==> Phase(effs[i]) <= Phase(effs[j])
  {
    if st.selectedImage.Some? {
      var effs := SignUpEffects(st.selectedImage, outcome, form);
      var rest := ResponseEffects(outcome, form);
      ResponseInOrder(outcome, form);
      assert effs == [UploadRequested(st.selectedImage.value)] + rest;
      forall i, j | 0 <= i < j < |effs|
        ensures Phase(effs[i]) <= Phase(effs[j])
      {
        assert effs[j] == rest[j - 1];
        if 0 < i {
          assert effs[i] == rest[i - 1];
        }
      }
    }
  }

  /** The callbacks' own actions come in phase order, after the upload's. */
  lemma ResponseInOrder(outcome: UploadOutcome, form: FormValues)
    ensures var effs := ResponseEffects(outcome, form);
      forall i, j :: 0 <= i < j < |effs| ==> 1 <= Phase(effs[i]) <= Phase(effs[j])
  {
    var effs := ResponseEffects(outcome, form);
    match outcome
    case Failure =>
      assert effs == [ToastShown(ErrorToast)];
    case EmptyBody =>
    case Url(photo) =>
      if Test(PasswordPattern, form.password) {
        AcceptedPhases(photo, form);
      } else {
        RejectedResponse(photo, form);
        assert Phase(effs[0]) == 1 && Phase(effs[1]) == 1;
      }
  }

  /** With an accepted password the callbacks' actions fill phases 1 to 5 in turn. */
  lemma AcceptedPhases(photo: Option<string>, form: FormValues)
    requires Test(PasswordPattern, form.password)
    ensures var effs := ResponseEffects(Url(photo), form);
      |effs| == 5 && forall k :: 0 <= k < 5 ==> Phase(effs[k]) == k + 1
  {
    AcceptedResponse(photo, form);
    assert LoginStatusKey != UserDataKey by { assert LoginStatusKey[0] != UserDataKey[0]; }
  }

  /** Two successful registrations in a row leave only the second user stored. */
  lemma SecondSignUpOverwrites(st: PageState, photo1: Option<string>, form1: FormValues, photo2: Option<string>, form2: FormValues)
    requires st.selectedImage.Some?
    requires IsValidPassword(form1.password) && IsValidPassword(form2.password)
    ensures var first := Run(st, SignUpEffects(st.selectedImage, Url(photo1), form1));
            var second := Run(first, SignUpEffects(first.selectedImage, Url(photo2), form2));
            && GetItem(second.storage, UserDataKey)
               == Some(Serialized(NewUser(photo2, form2)))
            && GetItem(second.storage, LoginStatusKey) == Some(Text("true"))
  {
    SignUpAccepted(st, photo1, form1);
    var first := Run(st, SignUpEffects(st.selectedImage, Url(photo1), form1));
    SignUpAccepted(first, photo2, form2);
  }

  /** The mounted registration page: its React state, the origin's storage,
      the router's navigation target and the log of the handler's actions. */
  class RegistrationPage {
    var selectedImage: Option<File>
    var selectedImageName: string
    var passwordErrorMessage: Option<string>
    var storage: Storage
    var navigation: Option<string>
    var effects: seq<Effect>

    function State(): PageState
      reads this
    {
      PageState(selectedImage, selectedImageName, passwordErrorMessage, storage, navigation)
    }

    /** A fresh page over whatever the origin's storage already holds. */
    constructor (stored: Storage)
      ensures State() == PageState(None, "", None, stored, None)
      ensures effects == []
    {
      selectedImage := None;
      selectedImageName := "";
      passwordErrorMessage := None;
      storage := stored;
      navigation := None;
      effects := [];
    }

    /** `handleImageInput`: a non-empty file list selects its first file and
        shows its name; an empty list clears the name only, so the picture
        selected before stays selected. */
    method HandleImageInput(files: seq<File>)
      modifies this
      ensures |files| > 0 ==> selectedImage == Some(files[0]) && selectedImageName == files[0].name
      ensures |files| == 0 ==> selectedImage == old(selectedImage) && selectedImageName == ""
      ensures passwordErrorMessage == old(passwordErrorMessage)
      ensures storage == old(storage) && navigation == old(navigation) && effects == old(effects)
    {
      if |files| > 0 {
        var file := files[0];
        selectedImageName := file.name;
        selectedImage := Some(file);
      } else {
        selectedImageName := "";
      }
    }

    /** `handleSignUp`, with the upload's outcome given: the actions it takes
        are those `SignUpEffects` lists, in that order, and the state is what
        they leave. */
    method HandleSignUp(outcome: UploadOutcome, form: FormValues)
      modifies this
      ensures effects == old(effects) + SignUpEffects(old(selectedImage), outcome, form)
      ensures State() == Run(old(State()), SignUpEffects(old(selectedImage), outcome, form))
    {
      ghost var before := State();
      if selectedImage.None? {
        SignUpWithoutImage(before, outcome, form);
        return;
      }
      var image := selectedImage.value;
      PostImage(image);
      HandleResponse(outcome, form);
      assert SignUpEffects(Some(image), outcome, form) == [UploadRequested(image)] + ResponseEffects(outcome, form);
      RunSignUp(before, image, outcome, form);
    }

    /** How the upload's promise settles: `.catch` shows the error toast,
        `.then` stops at a falsy body and otherwise goes on with the URL. */
    method HandleResponse(outcome: UploadOutcome, form: FormValues)
      modifies this
      ensures effects == old(effects) + ResponseEffects(outcome, form)
      ensures State() == Run(old(State()), ResponseEffects(outcome, form))
    {
      ghost var before := State();
      match outcome {
        case Failure =>
          ShowToast(ErrorToast);
          RunResponseNotOk(before, outcome, form);
        case EmptyBody =>
          RunResponseNotOk(before, outcome, form);
        case Url(photo) =>
          HandleUploaded(photo, form);
      }
    }

    /** The rest of the `.then` callback, once the display URL is known:
        check the password, then store the user and the flag and navigate. */
    method HandleUploaded(photo: Option<string>, form: FormValues)
      modifies this
      ensures effects == old(effects) + ResponseEffects(Url(photo), form)
      ensures State() == Run(old(State()), ResponseEffects(Url(photo), form))
    {
      ghost var before := State();
      SetPasswordErrorMessage(None);
      if !Test(PasswordPattern, form.password) {
        SetPasswordErrorMessage(Some(PasswordErrorText));
        RejectedResponse(photo, form);
        RunResponseRejected(before, photo, form);
        return;
      }
      ghost var cleared := effects;
      StoreUser(photo, form);
      AcceptedResponse(photo, form);
      assert effects == cleared + ResponseEffects(Url(photo), form)[1..];
      RunResponseAccepted(before, photo, form);
    }

    /** The accepted-password branch: store the record and the login flag,
        show the success toast and go to the profile route. */
    method StoreUser(photo: Option<string>, form: FormValues)
      modifies this
      ensures effects == old(effects) + [StorageWritten(UserDataKey, Serialized(NewUser(photo, form))),
                                         StorageWritten(LoginStatusKey, Text("true")),
                                         ToastShown(SuccessToast), NavigatedTo(ProfileRoute)]
      ensures State() == old(State()).(storage := old(storage)[UserDataKey := Serialized(NewUser(photo, form))]
                                                              [LoginStatusKey := Text("true")],
                                       navigation := Some(ProfileRoute))
    {
      var newData := NewUser(photo, form);
      SetItem(UserDataKey, Serialized(newData));
      SetItem(LoginStatusKey, Text(BooleanToString(true)));
      ShowToast(SuccessToast);
      Navigate(ProfileRoute);
    }

    /** The POST of the selected picture to the image host. */
    method PostImage(file: File)
      modifies this
      ensures effects == old(effects) + [UploadRequested(file)]
      ensures State() == old(State())
    {
      effects := effects + [UploadRequested(file)];
    }

    method SetPasswordErrorMessage(message: Option<string>)
      modifies this
      ensures effects == old(effects) + [PasswordMessageSet(message)]
      ensures State() == Step(old(State()), PasswordMessageSet(message))
    {
      passwordErrorMessage := message;
      effects := effects + [PasswordMessageSet(message)];
    }

    /** `localStorage.setItem(key, value)`. */
    method SetItem(key: string, value: StoredValue)
      modifies this
      ensures effects == old(effects) + [StorageWritten(key, value)]
      ensures State() == Step(old(State()), StorageWritten(key, value))
    {
      storage := WebStorage.SetItem(storage, key, value);
      effects := effects + [StorageWritten(key, value)];
    }

    method ShowToast(kind: ToastKind)
      modifies this
      ensures effects == old(effects) + [ToastShown(kind)]
      ensures State() == old(State())
    {
      effects := effects + [ToastShown(kind)];
    }

    /** `navigate(path)`. */
    method Navigate(path: string)
      modifies this
      ensures effects == old(effects) + [NavigatedTo(path)]
      ensures State() == Step(old(State()), NavigatedTo(path))
    {
      navigation := Some(path);
      effects := effects + [NavigatedTo(path)];
    }
  }

  /** The worked registration: a picture is selected, the host returns its
      display URL and the password passes. Whatever storage held before, it
      now holds the new record and "true", the message is clear and the page
      goes to the profile route. */
  method HappyPathScenario(stored: Storage)
    returns (userData: Option<StoredValue>, loginStatus: Option<StoredValue>,
             message: Option<string>, target: Option<string>)
    ensures userData == Some(Serialized(UserRecord("Ann", "ann@x.com", Some("https://img/1.png"), "555-1234", "Abc!23")))
    ensures loginStatus == Some(Text("true"))
    ensures message == None && target == Some("/")
  {
    var page := new RegistrationPage(stored);
    page.HandleImageInput([File("ann.png")]);
    AcceptedExample();
    PatternMatchesPolicy("Abc!23");
    SignUpAccepted(page.State(), Some("https://img/1.png"), FormValues("Ann", "ann@x.com", "555-1234", "Abc!23"));
    page.HandleSignUp(Url(Some("https://img/1.png")), FormValues("Ann", "ann@x.com", "555-1234", "Abc!23"));
    userData := GetItem(page.storage, UserDataKey);
    loginStatus := GetItem(page.storage, LoginStatusKey);
    message := page.passwordErrorMessage;
    target := page.navigation;
  }

  /** A body whose `data.data` has no `display_url` throws nothing: with a
      good password the user is still stored, without a photo, and the page
      still goes to the profile route. */
  method MissingDisplayUrlScenario(stored: Storage)
    returns (userData: Option<StoredValue>, loginStatus: Option<StoredValue>, target: Option<string>)
    ensures userData == Some(Serialized(UserRecord("Ann", "ann@x.com", None, "555-1234", "Abc!23")))
    ensures loginStatus == Some(Text("true")) && target == Some("/")
  {
    var page := new RegistrationPage(stored);
    page.HandleImageInput([File("ann.png")]);
    AcceptedExample();
    PatternMatchesPolicy("Abc!23");
    SignUpAccepted(page.State(), None, FormValues("Ann", "ann@x.com", "555-1234", "Abc!23"));
    page.HandleSignUp(Url(None), FormValues("Ann", "ann@x.com", "555-1234", "Abc!23"));
    userData := GetItem(page.storage, UserDataKey);
    loginStatus := GetItem(page.storage, LoginStatusKey);
    target := page.navigation;
  }

  /** The same registration with the password "abc123": storage is untouched,
      the fixed message is shown and the page stays. */
  method RejectedPasswordScenario(stored: Storage)
    returns (after: Storage, message: Option<string>, target: Option<string>)
    ensures after == stored
    ensures message == Some(PasswordErrorText) && target == None
  {
    var page := new RegistrationPage(stored);
    page.HandleImageInput([File("ann.png")]);
    RejectedExamples();
    PatternMatchesPolicy("abc123");
    SignUpRejected(page.State(), Some("https://img/1.png"), FormValues("Ann", "ann@x.com", "555-1234", "abc123"));
    page.HandleSignUp(Url(Some("https://img/1.png")), FormValues("Ann", "ann@x.com", "555-1234", "abc123"));
    after := page.storage;
    message := page.passwordErrorMessage;
    target := page.navigation;
  }

  /** A failed upload, whatever the password: storage untouched, no message,
      no navigation, and the error toast is shown. */
  method UploadFailureScenario(stored: Storage, form: FormValues)
    returns (after: Storage, message: Option<string>, target: Option<string>, actions: seq<Effect>)
    ensures after == stored && message == None && target == None
    ensures ToastShown(ErrorToast) in actions
  {
    var page := new RegistrationPage(stored);
    page.HandleImageInput([File("ann.png")]);
    SignUpUploadNotOk(page.State(), Failure, form);
    page.HandleSignUp(Failure, form);
    after := page.storage;
    message := page.passwordErrorMessage;
    target := page.navigation;
    actions := page.effects;
  }

  /** Choosing a file and then cancelling the picker clears the label back to
      the prompt, but the next submit still uploads the first file. */
  method CancelledPickerScenario(file: File, outcome: UploadOutcome, form: FormValues)
    returns (shown: string, firstAction: Effect)
    ensures shown == LabelPrompt
    ensures firstAction == UploadRequested(file)
  {
    var page := new RegistrationPage(map[]);
    page.HandleImageInput([file]);
    page.HandleImageInput([]);
    shown := FileLabel(page.selectedImageName);
    SignUpInSourceOrder(page.State(), outcome, form);
    page.HandleSignUp(outcome, form);
    firstAction := page.effects[0];
  }
}
