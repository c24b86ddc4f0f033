/**
 * `MainComponent`: the signed-in main page, with its English/Romanian text tables, the
 * login check on start-up, and the same per-video progress as the training tab.
 */
module MainPage {
  import opened Wrappers
  import opened VideoProgress
  import Auth

  /** The `en` table. */
  const English: map<string, string> := map[
    "home" := "Home",
    "sesiune" := "Session",
    "instructaj" := "Training",
    "settings" := "Settings",
    "contact" := "Contact",
    "profile" := "Profile",
    "logout" := "Logout",
    "filme_instructaj" := "Training Videos",
    "training_player" := "Training Player",
    "select_video" := "Select a video to watch",
    "status" := "Status",
    "not_started" := "Not started",
    "in_progress" := "In progress",
    "finished" := "Finished",
    "workplace_culture" := "Workplace Culture & Environment",
    "teamwork" := "Teamwork & Collaboration",
    "communication" := "Professional Communication",
    "initiaza_sesiune" := "Start Session",
    "optiuni_semnare" := "Signing Options",
    "nu_semneaza" := "No electronic signature",
    "semneaza_digital" := "Digital signature",
    "instruire" := "Training",
    "selecteaza_angajati" := "Select Employees",
    "perioada_valabilitate" := "Session Validity Period",
    "nume_sesiune" := "Session Name",
    "filtreaza_angajati" := "Filter employees by hire date",
    "de_la" := "From",
    "pana_la" := "Until",
    "termen_limita" := "Deadline",
    "sesiune_introductiva" := "Introductory session",
    "tip_initiere" := "Type of initiation",
    "selecteaza" := "Select",
    "filtrati" := "filtered",
    "angajati_selectati" := "Selected employees",
    "selectati" := "selected",
    "setari" := "Settings",
    "initiaza_sesiune_btn" := "Start Session"
  ]

  /** The `ro` table. */
  const Romanian: map<string, string> := map[
    "home" := "Acas\U{103}",
    "sesiune" := "Sesiune",
    "instructaj" := "Instructaj",
    "settings" := "Set\U{103}ri",
    "contact" := "Contact",
    "profile" := "Profil",
    "logout" := "Deconectare",
    "filme_instructaj" := "Filme instructaj",
    "training_player" := "Player Instructaj",
    "select_video" := "Selecteaz\U{103} un videoclip pentru a viziona",
    "status" := "Status",
    "not_started" := "Ne\U{EE}nceput",
    "in_progress" := "\U{CE}n desf\U{103}\U{219}urare",
    "finished" := "Finalizat",
    "workplace_culture" := "Cultura & Mediul de Lucru",
    "teamwork" := "Lucru \U{EE}n Echip\U{103} & Colaborare",
    "communication" := "Comunicare Profesional\U{103}",
    "initiaza_sesiune" := "Initiaza sesiune",
    "optiuni_semnare" := "Optiuni semnare",
    "nu_semneaza" := "Nu se semneaza electronic",
    "semneaza_digital" := "Se semneaza digital",
    "instruire" := "Instruire",
    "selecteaza_angajati" := "Selecteaza angajati",
    "perioada_valabilitate" := "Perioada de valabilitate a sesiunii",
    "nume_sesiune" := "Nume sesiune",
    "filtreaza_angajati" := "Filtreaza angajatii dupa data angajarii",
    "de_la" := "De la",
    "pana_la" := "Pana la",
    "termen_limita" := "Termen limita",
    "sesiune_introductiva" := "Sesiune introductiva",
    "tip_initiere" := "Tip initiere",
    "selecteaza" := "Selecteaza",
    "filtrati" := "filtrati",
    "angajati_selectati" := "Angajati selectati",
    "selectati" := "selectati",
    "setari" := "Setari",
    "initiaza_sesiune_btn" := "Initiaza sesiune"
  ]

  /** `translations`: language code to table. */
  const Translations: map<string, map<string, string>> := map["en" := English, "ro" := Romanian]

  /** The language the page starts in and resets to. */
  const DefaultLanguage: string := "en"

  /** The table for `language` has a non-empty entry for `key`. */
  predicate HasEntry(language: string, key: string) {
    language in Translations && key in Translations[language] && Translations[language][key] != ""
  }

  /** `translations[language][key] || key`: the entry, or the key itself when the entry is
      missing or empty. An unknown language makes the lookup throw, which is None here. */
  function Translate(language: string, key: string): (r: Option<string>)
    ensures r.None? <==> language !in Translations
    ensures HasEntry(language, key) ==> r == Some(Translations[language][key])
    ensures r.Some? && !HasEntry(language, key) ==> r.value == key
    ensures r.Some? ==> r.value != "" || key == ""
  {
    if language !in Translations then None
    else
      var table := Translations[language];
      if key in table && table[key] != "" then Some(table[key]) else Some(key)
  }

  /** Both tables have the same keys and no empty entry. */
  lemma TablesAgree()
    ensures English.Keys == Romanian.Keys
    ensures forall k :: k in English ==> English[k] != ""
    ensures forall k :: k in Romanian ==> Romanian[k] != ""
  {
  }

  /** Whether a key falls back to itself does not depend on the language: it has an entry in
      one table exactly when it has one in the other. */
  lemma FallbackIndependentOfLanguage(key: string)
    ensures HasEntry("en", key) <==> HasEntry("ro", key)
    ensures !HasEntry("en", key) ==> Translate("en", key) == Some(key) && Translate("ro", key) == Some(key)
  {
    TablesAgree();
  }

  /** The navigation label for the home tab in both languages, and an unknown key. */
  lemma TranslateExamples()
    ensures Translate("en", "home") == Some("Home")
    ensures Translate("ro", "home") == Some("Acas\U{103}")
    ensures Translate("ro", "dashboard") == Some("dashboard")
    ensures Translate("fr", "home") == None
  {
    TablesAgree();
  }

  class MainComponent {
    const auth: Auth.AuthService
    var username: string
    var selectedVideo: Option<string>
    var currentLanguage: string
    var videoStatus: StatusMap

    /** The progress dictionary only holds the three status strings. */
    predicate Valid()
      reads this
    {
      WellFormed(videoStatus)
    }

    /** No user name yet, English, no video selected, all videos not started. */
    constructor (auth: Auth.AuthService)
      ensures this.auth == auth
      ensures username == "" && selectedVideo == None
      ensures currentLanguage == DefaultLanguage
      ensures videoStatus == InitialStatus
      ensures Valid()
    {
      this.auth := auth;
      username := "";
      selectedVideo := None;
      currentLanguage := DefaultLanguage;
      videoStatus := InitialStatus;
    }

    /** `ngOnInit`: a signed-out visitor is sent to the login page (`redirectToLogin`); a
        signed-in one gets the user name shown (`''` for a missing one). Either way the page
        starts in English. */
    method NgOnInit() returns (redirectToLogin: bool)
      modifies this
      ensures redirectToLogin <==> !auth.IsLoggedIn()
      ensures redirectToLogin ==> username == old(username)
      ensures !redirectToLogin ==> Some(username) == auth.GetCurrentUser()
      ensures currentLanguage == DefaultLanguage
      ensures selectedVideo == old(selectedVideo) && videoStatus == old(videoStatus)
    {
      if !auth.IsLoggedIn() {
        redirectToLogin := true;
      } else {
        redirectToLogin := false;
        username := auth.GetCurrentUser().GetOr("");
      }
      currentLanguage := DefaultLanguage;
    }

    /** `changeLanguage`: any string is accepted, even one `Translate` has no table for. */
    method ChangeLanguage(language: string)
      modifies this
      ensures currentLanguage == language
      ensures username == old(username) && selectedVideo == old(selectedVideo)
      ensures videoStatus == old(videoStatus)
    {
      currentLanguage := language;
    }

    /** `translate(key)` in the current language: defined exactly for `en` and `ro`. */
    function TranslateKey(key: string): (r: Option<string>)
      reads this
      ensures r.Some? <==> currentLanguage == "en" || currentLanguage == "ro"
      ensures HasEntry(currentLanguage, key) ==> r == Some(Translations[currentLanguage][key])
      ensures r.Some? && !HasEntry(currentLanguage, key) ==> r.value == key
    {
      Translate(currentLanguage, key)
    }

    /** `selectVideo`: selects the video and starts it when it was not started. */
    method SelectVideo(videoId: string)
      requires Valid()
      modifies this
      ensures selectedVideo == Some(videoId)
      ensures videoStatus == AfterSelect(old(videoStatus), videoId)
      ensures username == old(username) && currentLanguage == old(currentLanguage)
      ensures Valid()
    {
      selectedVideo := Some(videoId);
      if videoId in videoStatus && videoStatus[videoId] == NotStarted {
        videoStatus := videoStatus[videoId := InProgress];
      }
      ProgressIsMonotone(old(videoStatus), videoId, EndedCode);
    }

    /** `onPlayerStateChange(event, videoId)` with `event.data == code`. */
    method OnPlayerStateChange(code: int, videoId: string)
      requires Valid()
      modifies this
      ensures videoStatus == AfterPlayerEvent(old(videoStatus), videoId, code)
      ensures selectedVideo == old(selectedVideo)
      ensures username == old(username) && currentLanguage == old(currentLanguage)
      ensures Valid()
    {
      if code == EndedCode {
        videoStatus := videoStatus[videoId := Finished];
      }
      ProgressIsMonotone(old(videoStatus), videoId, code);
    }

    /** `logout`: signs out through the service and always goes to the login page. */
    method Logout() returns (redirectToLogin: bool)
      modifies auth, auth.store
      ensures redirectToLogin
      ensures !auth.IsLoggedIn()
      ensures auth.Synced()
    {
      auth.Logout();
      redirectToLogin := true;
    }
  }

  /** A visitor who signed in and then reloads the page sees the main page as `admin`, in
      English, even after switching to Romanian before the reload. */
  method SignInThenOpen(store: Auth.KeyValueStore) returns (redirected: bool, shown: string, homeLabel: Option<string>)
    modifies store
    ensures !redirected && shown == Auth.AdminUser
    ensures homeLabel == Some("Home")
  {
    var service := new Auth.AuthService(store);
    var ok := service.Login(Auth.AdminUser, Auth.AdminPassword);
    var page := new MainComponent(service);
    page.ChangeLanguage("ro");
    redirected := page.NgOnInit();
    shown := page.username;
    TranslateExamples();
    homeLabel := page.TranslateKey("home");
  }
}
