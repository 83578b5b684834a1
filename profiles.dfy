/** The profile routes over the `user_profiles` table, a map from user id to
    row held by `ProfileTable`. */
module Profiles {
  import opened Values
  import opened Auth

  /** The error code of a `.single()` lookup that finds no row. */
  const NoRows: string := "PGRST116"
  const ImageRequired: string := "Image URL is required"
  const Updated: string := "Profile updated successfully"
  const ImageUpdated: string := "Profile image updated"

  /** A row of `user_profiles`; a column never written is None (SQL null). */
  datatype Profile = Profile(id: string, email: string, fullName: Option<string>,
                             experience: Option<string>, role: Option<string>,
                             imageUrl: Option<string>, surveyCompleted: bool,
                             surveyCompletedAt: Option<int>, updatedAt: Option<int>)

  /** The fields a PUT body may carry. */
  datatype ProfileBody = ProfileBody(fullName: Option<string>, experience: Option<string>,
                                     role: Option<string>, imageUrl: Option<string>)

  /** The `profile` of a GET reply: `data || {}`. */
  datatype ProfileView = Blank | Found(row: Profile)

  /** Equal in every column except `profile_image_url` and `updated_at`. */
  predicate SameExceptImage(p: Profile, q: Profile) {
    && p.id == q.id && p.email == q.email && p.fullName == q.fullName
    && p.experience == q.experience && p.role == q.role
    && p.surveyCompleted == q.surveyCompleted && p.surveyCompletedAt == q.surveyCompletedAt
  }

  /** The row the PUT handler upserts for the authenticated user. */
  function Upserted(user: User, body: ProfileBody, now: int): (p: Profile)
    ensures p.id == user.id && p.email == user.email
    ensures p.surveyCompleted && p.surveyCompletedAt == Some(now) && p.updatedAt == Some(now)
    ensures p.fullName == body.fullName && p.experience == body.experience
    ensures p.role == body.role && p.imageUrl == body.imageUrl
  {
    Profile(user.id, user.email, body.fullName, body.experience, body.role, body.imageUrl, true, Some(now), Some(now))
  }

  /** Whatever the body says, the identity and survey columns come from the
      token user and the clock. */
  lemma BodyCannotChooseIdentity(user: User, b1: ProfileBody, b2: ProfileBody, now: int)
    ensures var p, q := Upserted(user, b1, now), Upserted(user, b2, now);
            p.id == q.id && p.email == q.email && p.surveyCompleted == q.surveyCompleted
            && p.surveyCompletedAt == q.surveyCompletedAt && p.updatedAt == q.updatedAt
  {
  }

  class ProfileTable {
    var profiles: map<string, Profile>

    /** Each row is stored under its own id. */
    ghost predicate Valid()
      reads this
    {
      forall k :: k in profiles ==> profiles[k].id == k
    }

    constructor ()
      ensures Valid() && profiles == map[]
    {
      profiles := map[];
    }

    /** GET `/`: the store's `.single()` lookup fails with `fault` when given,
        and with PGRST116 when the caller has no row; PGRST116 gives the empty
        profile and any other error 500. */
    function Get(userId: string, fault: Option<string>): (r: Reply<ProfileView>)
      reads this
      ensures r.Err? <==> fault.Some? && fault.value != NoRows
      ensures r.Err? ==> r == Err(500, InternalError)
      ensures r.Ok? ==> r.status == 200
      ensures r == Ok(200, Blank) <==> (fault == Some(NoRows) || (fault.None? && userId !in profiles))
      ensures r.Ok? && r.value.Found? <==> fault.None? && userId in profiles
      ensures r.Ok? && r.value.Found? ==> r.value.row == profiles[userId]
      ensures Valid() && r.Ok? && r.value.Found? ==> r.value.row.id == userId
    {
      var error := if fault.Some? then fault else if userId !in profiles then Some(NoRows) else None;
      if error.Some? && error.value != NoRows then Err(500, InternalError)
      else if error.Some? then Ok(200, Blank)
      else Ok(200, Found(profiles[userId]))
    }

    /** PUT `/`: upsert the caller's row, keyed by the token user's id. No
        other row changes. */
    method Update(user: User, body: ProfileBody, fault: bool, now: int) returns (reply: Reply<Profile>)
      requires Valid()
      modifies this
      ensures Valid()
      ensures fault ==> reply == Err(500, InternalError) && profiles == old(profiles)
      ensures !fault ==> profiles == old(profiles)[user.id := Upserted(user, body, now)]
                         && reply == Ok(200, Upserted(user, body, now))
      ensures profiles.Keys <= old(profiles.Keys) + {user.id}
      ensures forall k :: k in old(profiles) && k != user.id ==> k in profiles && profiles[k] == old(profiles)[k]
    {
      if fault {
        reply := Err(500, InternalError);
      } else {
        var row := Upserted(user, body, now);
        profiles := profiles[user.id := row];
        reply := Ok(200, row);
      }
    }

    /** POST `/image`: a missing or empty URL is refused; otherwise only the
        caller's row, if there is one, gets the new URL and time. The reply's
        profile is `data[0]`, absent when no row matched. */
    method UpdateImage(userId: string, url: Option<string>, fault: bool, now: int) returns (reply: Reply<Option<Profile>>)
      requires Valid()
      modifies this
      ensures Valid()
      ensures profiles.Keys == old(profiles.Keys)
      ensures forall k :: k in profiles && k != userId ==> profiles[k] == old(profiles)[k]
      ensures url.None? || url.value == "" ==> reply == Err(400, ImageRequired) && profiles == old(profiles)
      ensures url.Some? && url.value != "" && fault ==> reply == Err(500, InternalError) && profiles == old(profiles)
      ensures url.Some? && url.value != "" && !fault && userId !in old(profiles) ==>
                reply == Ok(200, None) && profiles == old(profiles)
      ensures url.Some? && url.value != "" && !fault && userId in old(profiles) ==>
                && SameExceptImage(profiles[userId], old(profiles)[userId])
                && profiles[userId].imageUrl == url && profiles[userId].updatedAt == Some(now)
                && reply == Ok(200, Some(profiles[userId]))
    {
      if url.None? || url.value == "" {
        reply := Err(400, ImageRequired);
      } else if fault {
        reply := Err(500, InternalError);
      } else if userId in profiles {
        var row := profiles[userId].(imageUrl := url, updatedAt := Some(now));
        profiles := profiles[userId := row];
        reply := Ok(200, Some(row));
      } else {
        reply := Ok(200, None);
      }
    }
  }
}
