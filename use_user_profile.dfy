/**
 * The profile hook: the state it keeps (profile, loading and saving flags, error), saveProfile with
 * its trimming and completeness check, loadProfile's mapping of the response, and needsInfo. The
 * requests it makes and the refreshUser calls are recorded on the hook so that "no request" can be
 * stated; what the server answers is an input.
 */
module UseUserProfile {
  import opened Wrappers
  import opened Text
  import opened Json
  import ApiClient

  const IncompleteMessage: string := "Fyll inn alle feltene før du lagrer."
  const SaveFailed: string := "Kunne ikke lagre informasjon."
  const LoadFailed: string := "Klarte ikke å hente brukerdata."

  datatype UserProfileForm = UserProfileForm(firstName: string, lastName: string, ssn: string)

  /** The request the hook sent: GET /user/me, or PUT /user/me with its payload. */
  datatype ProfileRequest = LoadRequest | SaveRequest(payload: UserProfileForm)

  /** The three fields, trimmed: what saveProfile validates and sends. */
  function Trimmed(values: UserProfileForm): (r: UserProfileForm)
    ensures r.firstName == Trim(values.firstName) && r.lastName == Trim(values.lastName) && r.ssn == Trim(values.ssn)
  {
    UserProfileForm(Trim(values.firstName), Trim(values.lastName), Trim(values.ssn))
  }

  /** needsInfo: some field is empty once trimmed. */
  predicate NeedsInfo(profile: UserProfileForm) {
    Trim(profile.firstName) == "" || Trim(profile.lastName) == "" || Trim(profile.ssn) == ""
  }

  /** saveProfile's guard: the ApiError 400 it throws for an incomplete form, before any request. */
  function IncompleteError(values: UserProfileForm): (r: Option<ApiClient.ApiError>)
    ensures r.Some? <==> NeedsInfo(values)
    ensures r.Some? ==> r.value == ApiClient.ApiError(IncompleteMessage, 400, None)
  {
    var payload := Trimmed(values);
    if payload.firstName == "" || payload.lastName == "" || payload.ssn == "" then
      Some(ApiClient.ApiError(IncompleteMessage, 400, None))
    else None
  }

  /** A form that passes the guard becomes, once trimmed, a profile that needs nothing more. */
  lemma TrimmedPayloadComplete(values: UserProfileForm)
    requires IncompleteError(values).None?
    ensures !NeedsInfo(Trimmed(values))
    ensures Trimmed(Trimmed(values)) == Trimmed(values)
  {
    TrimIdempotent(values.firstName);
    TrimIdempotent(values.lastName);
    TrimIdempotent(values.ssn);
  }

  /** One field of the /user/me response: its string, or '' where it is null or missing. */
  function ResponseField(data: JsonValue, key: string): (r: string)
    ensures Get(data, key).Some? && Get(data, key).value.JString? ==> r == Get(data, key).value.s
    ensures Get(data, key).None? || Get(data, key) == Some(JNull) ==> r == ""
  {
    match Get(data, key)
    case Some(JString(s)) => s
    case _ => ""
  }

  function ProfileOf(data: JsonValue): UserProfileForm {
    UserProfileForm(ResponseField(data, "firstName"), ResponseField(data, "lastName"), ResponseField(data, "ssn"))
  }

  /** A response holding exactly the saved strings loads back as that profile. */
  lemma LoadAfterSave(profile: UserProfileForm)
    ensures ProfileOf(JObject([("firstName", JString(profile.firstName)), ("lastName", JString(profile.lastName)),
                               ("ssn", JString(profile.ssn))])) == profile
  {
    var fields := [("firstName", JString(profile.firstName)), ("lastName", JString(profile.lastName)), ("ssn", JString(profile.ssn))];
    assert |"firstName"| != |"lastName"| && |"firstName"| != |"ssn"| && |"lastName"| != |"ssn"|;
    assert fields[..2] == [("firstName", JString(profile.firstName)), ("lastName", JString(profile.lastName))];
    assert fields[..2][..1] == [("firstName", JString(profile.firstName))];
    assert Lookup(fields, "ssn") == Some(JString(profile.ssn));
    assert Lookup(fields, "lastName") == Lookup(fields[..2], "lastName") == Some(JString(profile.lastName));
    assert Lookup(fields, "firstName") == Lookup(fields[..2][..1], "firstName") == Some(JString(profile.firstName));
  }

  /** A response of nulls loads as an empty profile, which needs information. */
  lemma NullResponseNeedsInfo()
    ensures ProfileOf(JObject([("firstName", JNull), ("lastName", JNull), ("ssn", JNull)])) == UserProfileForm("", "", "")
    ensures NeedsInfo(UserProfileForm("", "", ""))
  {
  }

  /** The error state a save leaves: getErrorMessage of what it threw, with the save fallback. */
  function SaveError(thrown: Option<ApiClient.Thrown>): (r: Option<string>)
    ensures r.Some? <==> thrown.Some?
    ensures thrown.Some? && thrown.value.ApiErrorThrown? && thrown.value.error.message != "" ==> r == Some(thrown.value.error.message)
  {
    if thrown.Some? then Some(ApiClient.GetErrorMessage(thrown.value, Some(SaveFailed))) else None
  }

  class ProfileHook {
    var profile: UserProfileForm
    var isLoading: bool
    var isSaving: bool
    var error: Option<string>
    var requests: seq<ProfileRequest>
    var refreshes: nat

    constructor ()
      ensures profile == UserProfileForm("", "", "") && isLoading && !isSaving && error.None?
      ensures requests == [] && refreshes == 0
    {
      profile := UserProfileForm("", "", "");
      isLoading := true;
      isSaving := false;
      error := None;
      requests := [];
      refreshes := 0;
    }

    /**
     * saveProfile: an incomplete form throws ApiError 400 and changes nothing; otherwise the trimmed
     * payload is saved.
     */
    method SaveProfile(values: UserProfileForm, putFailure: Option<ApiClient.Thrown>, refreshFailure: Option<ApiClient.Thrown>)
      returns (thrown: Option<ApiClient.Thrown>)
      modifies this
      ensures IncompleteError(values).Some? ==> thrown == Some(ApiClient.ApiErrorThrown(IncompleteError(values).value))
      ensures IncompleteError(values).Some? ==>
        profile == old(profile) && error == old(error) && isSaving == old(isSaving) && requests == old(requests) && refreshes == old(refreshes)
      ensures IncompleteError(values).None? ==> requests == old(requests) + [SaveRequest(Trimmed(values))] && !isSaving
      ensures IncompleteError(values).None? ==> profile == (if putFailure.None? then Trimmed(values) else old(profile))
      ensures IncompleteError(values).None? ==> refreshes == (if putFailure.None? then old(refreshes) + 1 else old(refreshes))
      ensures IncompleteError(values).None? ==> thrown == (if putFailure.Some? then putFailure else refreshFailure)
      ensures IncompleteError(values).None? ==> error == SaveError(thrown)
      ensures isLoading == old(isLoading)
    {
      var incomplete := IncompleteError(values);
      if incomplete.Some? {
        thrown := Some(ApiClient.ApiErrorThrown(incomplete.value));
        return;
      }
      thrown := Send(Trimmed(values), putFailure, refreshFailure);
    }

    /**
     * The request part of saveProfile: the payload is sent, and on success it becomes the profile
     * and refreshUser runs; a failure of either is stored as the error message and rethrown.
     * putFailure and refreshFailure are what the PUT and refreshUser throw, if anything.
     */
    method Send(payload: UserProfileForm, putFailure: Option<ApiClient.Thrown>, refreshFailure: Option<ApiClient.Thrown>)
      returns (thrown: Option<ApiClient.Thrown>)
      modifies this
      ensures requests == old(requests) + [SaveRequest(payload)] && !isSaving && isLoading == old(isLoading)
      ensures profile == (if putFailure.None? then payload else old(profile))
      ensures refreshes == (if putFailure.None? then old(refreshes) + 1 else old(refreshes))
      ensures thrown == (if putFailure.Some? then putFailure else refreshFailure) && error == SaveError(thrown)
    {
      isSaving := true;
      error := None;
      requests := requests + [SaveRequest(payload)];
      thrown := putFailure;
      if putFailure.None? {
        profile := payload;
        refreshes := refreshes + 1;
        thrown := refreshFailure;
      }
      error := SaveError(thrown);
      isSaving := false;
    }

    /**
     * loadProfile: unauthenticated, it only settles the flags; otherwise it asks for the profile and
     * takes the response's fields, or stores the error message. response is what fetchJson resolves
     * to or throws; reading a field of a null response throws nullRead.
     */
    method LoadProfile(isAuthenticated: bool, response: Result<JsonValue, ApiClient.Thrown>, nullRead: ApiClient.Thrown)
      modifies this
      ensures !isLoading && isSaving == old(isSaving) && refreshes == old(refreshes)
      ensures !isAuthenticated ==> requests == old(requests) && profile == old(profile) && error.None?
      ensures isAuthenticated ==> requests == old(requests) + [LoadRequest]
      ensures isAuthenticated && response.Ok? && response.value != JNull ==> profile == ProfileOf(response.value) && error.None?
      ensures isAuthenticated && response.Ok? && response.value == JNull ==>
        profile == old(profile) && error == Some(ApiClient.GetErrorMessage(nullRead, Some(LoadFailed)))
      ensures isAuthenticated && response.Err? ==>
        profile == old(profile) && error == Some(ApiClient.GetErrorMessage(response.error, Some(LoadFailed)))
    {
      isLoading := true;
      error := None;
      if !isAuthenticated {
        isLoading := false;
        return;
      }
      requests := requests + [LoadRequest];
      match response {
        case Ok(data) =>
          if data == JNull {
            error := Some(ApiClient.GetErrorMessage(nullRead, Some(LoadFailed)));
          } else {
            profile := ProfileOf(data);
          }
        case Err(e) =>
          error := Some(ApiClient.GetErrorMessage(e, Some(LoadFailed)));
      }
      isLoading := false;
    }

    /** needsInfo over the current profile. */
    predicate ProfileNeedsInfo()
      reads this
    {
      NeedsInfo(profile)
    }
  }

  /** After a save that went through, the profile is complete. */
  lemma SavedProfileComplete(values: UserProfileForm, putFailure: Option<ApiClient.Thrown>)
    requires IncompleteError(values).None? && putFailure.None?
    ensures !NeedsInfo(Trimmed(values))
  {
    TrimmedPayloadComplete(values);
  }
}
