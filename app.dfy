/**
 * The application shell (frontend/src/App.tsx): which screen is shown, who is signed in and whether
 * MFA was used. The login page reports through `handlePasswordOk`, the MFA page through `handleMfaOk`.
 */
module App {
  import opened Wrappers
  import opened Http
  import Login

  datatype Screen = LoginPage | MfaPage | DashboardPage

  class Shell {
    var screen: Screen
    var currentUser: string
    var mfaEnabled: bool

    /** The MFA screen is only reached with MFA on; the login screen only before anyone signed in. */
    ghost predicate Valid()
      reads this
    {
      && (screen == MfaPage ==> mfaEnabled)
      && (screen == LoginPage ==> currentUser == "" && !mfaEnabled)
    }

    constructor ()
      ensures Valid() && screen == LoginPage && currentUser == "" && !mfaEnabled
    {
      screen := LoginPage;
      currentUser := "";
      mfaEnabled := false;
    }

    /** `handlePasswordOk`: record the user and the MFA flag, then go to MFA or straight to the dashboard. */
    method HandlePasswordOk(mfaFromApi: bool, username: string)
      requires Valid()
      modifies this
      ensures Valid()
      ensures currentUser == username && mfaEnabled == mfaFromApi
      ensures screen == (if mfaFromApi then MfaPage else DashboardPage)
    {
      currentUser := username;
      mfaEnabled := mfaFromApi;
      if mfaFromApi {
        screen := MfaPage;
      } else {
        screen := DashboardPage;
      }
    }

    /** `handleMfaOk`: MFA on and the dashboard shown; the user is kept. */
    method HandleMfaOk()
      requires Valid()
      modifies this
      ensures Valid()
      ensures mfaEnabled && screen == DashboardPage && currentUser == old(currentUser)
    {
      mfaEnabled := true;
      screen := DashboardPage;
    }

    /**
     * A submit on the login screen followed by the callback it triggers. Login always reports MFA as
     * on, so an accepted password leads to the MFA screen and never straight to the dashboard.
     */
    method SubmitLogin(form: Login.LoginForm, username: string, password: string, reply: Reply)
      requires Valid() && form.Valid() && screen == LoginPage
      modifies this, form
      ensures Valid() && form.Valid() && screen != DashboardPage
      ensures screen == MfaPage <==> Login.Submit(old(form.attempts), reply).passwordOk
      ensures screen == MfaPage ==> currentUser == username && mfaEnabled
    {
      var request, passwordOk := form.HandleSubmit(username, password, reply);
      if passwordOk.Some? {
        HandlePasswordOk(passwordOk.value.0, passwordOk.value.1);
      }
    }
  }
}
