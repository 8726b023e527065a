/** Bearer-token authentication as every group route performs it: the
    `authorization` header must start with "Bearer ", the token is the piece
    that `split('Bearer ')[1]` yields, and the auth provider either accepts the
    token (giving a uid) or throws, which the route's catch turns into a 500. */
module Identity {
  import opened Common

  const Scheme: string := "Bearer "

  /** The auth provider as the routes see it: the tokens it accepts, the email
      of each user record, and the uid behind each registered email. */
  datatype AuthProvider = AuthProvider(
    tokens: map<string, Uid>,
    emails: map<Uid, string>,
    uidByEmail: map<string, Uid>)

  predicate StartsWith(s: string, prefix: string)
  {
    |prefix| <= |s| && s[..|prefix|] == prefix
  }

  /** "Bearer " occurs in s at position i. */
  predicate SchemeAt(s: string, i: nat)
  {
    i + |Scheme| <= |s| && forall k :: 0 <= k < |Scheme| ==> s[i + k] == Scheme[k]
  }

  /** The text of s before the first occurrence of "Bearer " (all of s when
      there is none): the second piece of a JavaScript split on "Bearer ". */
  function UpToScheme(s: string): (r: string)
    ensures |r| <= |s| && r == s[..|r|]
    ensures |r| == |s| || SchemeAt(s, |r|)
    ensures forall i :: 0 <= i < |r| ==> !SchemeAt(s, i)
  {
    if |s| < |Scheme| then s
    else if SchemeAt(s, 0) then []
    else
      var tail := UpToScheme(s[1..]);
      forall i | 1 <= i <= |s| ensures SchemeAt(s, i) <==> SchemeAt(s[1..], i - 1) {
        SchemeAtDrop(s, 1, i - 1);
      }
      [s[0]] + tail
  }

  /** Looking for "Bearer " at i in s[d..] is looking at d + i in s. */
  lemma SchemeAtDrop(s: string, d: nat, i: nat)
    requires d <= |s|
    ensures SchemeAt(s, d + i) <==> SchemeAt(s[d..], i)
  {
  }

  /** The token a header carries, when it carries one: the text after the
      leading "Bearer " up to the next "Bearer " or the end of the header. */
  function BearerToken(header: Option<string>): (r: Option<string>)
    ensures r.Some? <==> header.Some? && StartsWith(header.value, Scheme)
    ensures r.Some? ==> r.value == UpToScheme(header.value[|Scheme|..])
    ensures r.Some? ==> var n := |Scheme| + |r.value|;
                        && n <= |header.value| && header.value[|Scheme|..n] == r.value
                        && (n == |header.value| || SchemeAt(header.value, n))
                        && forall i :: |Scheme| <= i < n ==> !SchemeAt(header.value, i)
  {
    if header.Some? && StartsWith(header.value, Scheme) then
      var rest := header.value[|Scheme|..];
      forall i | |Scheme| <= i <= |header.value|
        ensures SchemeAt(header.value, i) <==> SchemeAt(rest, i - |Scheme|)
      {
        SchemeAtDrop(header.value, |Scheme|, i - |Scheme|);
      }
      Some(UpToScheme(rest))
    else None
  }

  /** Header check, then token verification; a rejected token makes
      `verifyIdToken` throw, which the handlers map to a 500. */
  function Authenticate(header: Option<string>, auth: AuthProvider): (r: Reply<Uid>)
    ensures r.Err? ==> r.status == 401 || r.status == 500
    ensures r.Err? && r.status == 401 <==> BearerToken(header).None?
    ensures r.Ok? <==> BearerToken(header).Some? && BearerToken(header).value in auth.tokens
    ensures r.Ok? ==> r.value == auth.tokens[BearerToken(header).value]
  {
    match BearerToken(header)
    case None => Err(401, "Unauthorized")
    case Some(token) =>
      if token in auth.tokens then Ok(auth.tokens[token]) else Err(500, "Internal Server Error")
  }

  /** A header built as "Bearer " + t hands back exactly t, provided t does not
      itself contain "Bearer ". */
  lemma BearerTokenRoundTrip(t: string)
    requires forall i :: 0 <= i <= |t| ==> !SchemeAt(t, i)
    ensures BearerToken(Some(Scheme + t)) == Some(t)
  {
    var h := Scheme + t;
    assert h[..|Scheme|] == Scheme;
    assert h[|Scheme|..] == t;
    var r := UpToScheme(t);
    assert !SchemeAt(t, |r|);
    assert r == t[..|t|] == t;
  }
}
