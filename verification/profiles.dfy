/** The client's profile cache: `getProfile` answers from a memo map and
    fills it on the first successful lookup of a user. */
module Profiles {
  import opened Common

  const DefaultPicture := "https://utfs.io/f/n1CDOLNQtUGkbe4jZjaeEsrGvpiUFQC7x2mYJ0jR4DMktw1d"

  /** The `profile` of a successful `getUserProfile` answer. */
  datatype RemoteProfile = RemoteProfile(firstName: string, lastName: string, profilePictureUrl: Option<string>)

  /** A cached profile. */
  datatype Profile = Profile(username: string, profilePicture: string)

  /** The profile built from a lookup: full name, and the picture URL or the
      default picture when the URL is missing or empty. */
  function MakeProfile(p: RemoteProfile): (r: Profile)
    ensures r.username == p.firstName + " " + p.lastName
    ensures Truthy(p.profilePictureUrl) ==> r.profilePicture == p.profilePictureUrl.value
    ensures !Truthy(p.profilePictureUrl) ==> r.profilePicture == DefaultPicture
    ensures r.profilePicture != ""
  {
    Profile(p.firstName + " " + p.lastName,
            if Truthy(p.profilePictureUrl) then p.profilePictureUrl.value else DefaultPicture)
  }

  class ProfileCache {
    /** The memo map, user id to profile. */
    var profiles: map<Uid, Profile>

    constructor ()
      ensures profiles == map[]
    {
      profiles := map[];
    }

    /** `getProfile`. `lookup` is what `getUserProfile` would answer (None
        for a failed lookup); `fetched` tells whether it was asked. */
    method GetProfile(userId: Uid, lookup: Option<RemoteProfile>) returns (p: Option<Profile>, fetched: bool)
      modifies this
      ensures fetched <==> userId !in old(profiles)
      ensures !fetched ==> p == Some(old(profiles)[userId]) && profiles == old(profiles)
      ensures fetched && lookup.Some? ==>
                p == Some(MakeProfile(lookup.value)) && profiles == old(profiles)[userId := p.value]
      ensures fetched && lookup.None? ==> p == None && profiles == old(profiles)
    {
      if userId in profiles {
        return Some(profiles[userId]), false;
      }
      fetched := true;
      match lookup {
        case Some(remote) =>
          p := Some(MakeProfile(remote));
          profiles := profiles[userId := p.value];
        case None =>
          p := None;
      }
    }
  }

  /** After a successful lookup the next request for the same user is served
      from the cache, with the same profile. */
  method LookupThenHit(cache: ProfileCache, userId: Uid, remote: RemoteProfile, later: Option<RemoteProfile>)
    returns (first: Option<Profile>, second: Option<Profile>, fetchedAgain: bool)
    requires userId !in cache.profiles
    modifies cache
    ensures first == Some(MakeProfile(remote)) && second == first && !fetchedAgain
  {
    var fetched;
    first, fetched := cache.GetProfile(userId, Some(remote));
    second, fetchedAgain := cache.GetProfile(userId, later);
  }
}
