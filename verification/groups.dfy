/** A group document and the pure list computations the membership routes
    perform before writing the group back: append on add, `filter` and `find`
    on leave. */
module Groups {
  import opened Common

  /** A document of the `groups` collection. `members` and `admins` are
      ordered lists of uids; `profileUrl` is null until a picture is set. */
  datatype Group = Group(
    name: string,
    createdBy: Uid,
    createdAt: Millis,
    members: seq<Uid>,
    admins: seq<Uid>,
    profileUrl: Option<string>)

  /** What the membership routes are built to keep: no uid listed twice,
      every admin a member, and at least one admin while the group exists. */
  predicate WellFormed(g: Group)
  {
    && NoDup(g.members)
    && NoDup(g.admins)
    && g.admins != []
    && forall a :: a in g.admins ==> a in g.members
  }

  /** The group the create route writes: the creator is the only member and
      the only admin. */
  function NewGroup(name: string, creator: Uid, now: Millis): (g: Group)
    ensures WellFormed(g)
    ensures g.name == name && g.createdAt == now
    ensures g.members == g.admins == [creator] && g.createdBy == creator
    ensures g.profileUrl == None
  {
    Group(name, creator, now, [creator], [creator], None)
  }

  /** `s.filter(m => m !== x)`. */
  function Without(s: seq<Uid>, x: Uid): (r: seq<Uid>)
    ensures forall y :: y in r <==> y in s && y != x
    ensures x !in s ==> r == s
  {
    if s == [] then []
    else if s[0] == x then Without(s[1..], x)
    else [s[0]] + Without(s[1..], x)
  }

  /** Filtering drops exactly the occurrences of x: every other uid keeps its
      number of occurrences. */
  lemma {:induction false} WithoutCounts(s: seq<Uid>, x: Uid)
    ensures multiset(Without(s, x)) == multiset(s)[x := 0]
  {
    if s != [] {
      WithoutCounts(s[1..], x);
      assert s == [s[0]] + s[1..];
    }
  }

  /** Filtering a duplicate-free list leaves it duplicate-free. */
  lemma {:induction false} WithoutNoDup(s: seq<Uid>, x: Uid)
    requires NoDup(s)
    ensures NoDup(Without(s, x))
  {
    if s != [] {
      assert NoDup(s[1..]);
      WithoutNoDup(s[1..], x);
      if s[0] != x {
        assert s[0] !in s[1..];
        assert s[0] !in Without(s[1..], x);
      }
    }
  }

  /** `s.find(m => m !== x)`: the first element that is not x, if any. */
  function FirstOther(s: seq<Uid>, x: Uid): (r: Option<Uid>)
    ensures r.None? <==> forall i :: 0 <= i < |s| ==> s[i] == x
    ensures r.Some? ==> exists k :: 0 <= k < |s| && s[k] == r.value && r.value != x &&
                                    forall i :: 0 <= i < k ==> s[i] == x
  {
    if s == [] then None
    else if s[0] != x then Some(s[0])
    else
      var r := FirstOther(s[1..], x);
      r
  }

  datatype AddOutcome = Added(group: Group) | AlreadyMember

  /** The add-member decision: a uid already in `members` is refused, any
      other is appended at the end; nothing else of the group changes. */
  function AddMember(g: Group, uid: Uid): (r: AddOutcome)
    ensures r.AlreadyMember? <==> uid in g.members
    ensures r.Added? ==> r.group == g.(members := g.members + [uid])
  {
    if uid in g.members then AlreadyMember else Added(g.(members := g.members + [uid]))
  }

  /** Outcome of a leave: the group as written back, the group deleted, or no
      member other than the caller could be found to promote (the route then
      writes an undefined admin, which the store rejects). */
  datatype LeaveOutcome = Remaining(group: Group) | Dissolved | NoSuccessor

  predicate SoleAdmin(g: Group, uid: Uid)
  {
    uid in g.admins && |g.admins| == 1
  }

  /** The leave decision of the members route. */
  function Leave(g: Group, uid: Uid): (r: LeaveOutcome)
    ensures r.Dissolved? <==> SoleAdmin(g, uid) && |g.members| <= 1
    ensures r.Remaining? ==> uid !in r.group.members && r.group.name == g.name &&
                             r.group.createdBy == g.createdBy && r.group.profileUrl == g.profileUrl
  {
    if SoleAdmin(g, uid) then
      if |g.members| > 1 then
        match FirstOther(g.members, uid)
        case Some(heir) => Remaining(g.(members := Without(g.members, uid), admins := [heir]))
        case None => NoSuccessor
      else Dissolved
    else Remaining(g.(members := Without(g.members, uid), admins := Without(g.admins, uid)))
  }

  /** Adding keeps a well-formed group well-formed. */
  lemma AddPreservesWellFormed(g: Group, uid: Uid)
    requires WellFormed(g)
    ensures AddMember(g, uid).Added? ==> WellFormed(AddMember(g, uid).group)
  {
    if uid !in g.members {
      var m := g.members + [uid];
      forall i, j | 0 <= i < j < |m| ensures m[i] != m[j] {
        if j == |m| - 1 { assert m[i] in g.members; }
      }
    }
  }

  /** A duplicate-free list with one occurrence of x loses exactly that
      occurrence, the rest keeping its order. */
  lemma {:induction false} WithoutSplit(p: seq<Uid>, x: Uid, q: seq<Uid>)
    requires x !in p && x !in q
    ensures Without(p + [x] + q, x) == p + q
  {
    if p == [] {
      assert p + [x] + q == [x] + q;
      assert ([x] + q)[1..] == q;
    } else {
      WithoutSplit(p[1..], x, q);
      assert (p + [x] + q)[1..] == p[1..] + [x] + q;
      assert p + q == [p[0]] + (p[1..] + q);
    }
  }

  /** In a duplicate-free list of at least two elements every element has a
      different companion. */
  lemma OtherExists(s: seq<Uid>, x: Uid) returns (y: Uid)
    requires NoDup(s) && |s| >= 2
    ensures y in s && y != x
  {
    if s[0] != x { y := s[0]; } else { y := s[1]; }
  }

  /** Leaving keeps the invariant: the group is either gone or still
      well-formed, and a well-formed group always has a successor. */
  lemma LeavePreservesWellFormed(g: Group, uid: Uid)
    requires WellFormed(g)
    ensures !Leave(g, uid).NoSuccessor?
    ensures Leave(g, uid).Remaining? ==> WellFormed(Leave(g, uid).group)
  {
    WithoutNoDup(g.members, uid);
    if SoleAdmin(g, uid) {
      if |g.members| > 1 {
        var y := OtherExists(g.members, uid);
      }
    } else {
      WithoutNoDup(g.admins, uid);
      if uid in g.admins {
        var y := OtherExists(g.admins, uid);
        assert y in Without(g.admins, uid);
      }
    }
  }

  /** The sole admin leaves a group with other members: the caller is removed
      and the first other member in stored order becomes the only admin. */
  lemma LeaveHandsOff(g: Group, uid: Uid)
    requires WellFormed(g) && SoleAdmin(g, uid) && |g.members| > 1
    ensures Leave(g, uid).Remaining?
    ensures var h := Leave(g, uid).group;
            && h.members == Without(g.members, uid)
            && h.admins == [FirstOther(g.members, uid).value]
            && FirstOther(g.members, uid).value in h.members
  {
    var y := OtherExists(g.members, uid);
  }

  /** The sole admin who is also the only member deletes the group. */
  lemma LeaveLastMember(g: Group, uid: Uid)
    requires WellFormed(g) && uid in g.members && |g.members| == 1
    ensures Leave(g, uid) == Dissolved
  {
    assert g.members == [uid];
    OnlyElement(g.admins, uid);
  }

  /** A duplicate-free list all of whose elements are u is [] or [u]. */
  lemma {:induction false} OnlyElement(a: seq<Uid>, u: Uid)
    requires NoDup(a) && forall x :: x in a ==> x == u
    ensures a == [] || a == [u]
  {
    if a != [] {
      assert a[0] in a;
      assert u !in a[1..];
      assert forall x :: x in a[1..] ==> x in a;
      OnlyElement(a[1..], u);
      assert a == [a[0]] + a[1..];
    }
  }

  /** Any other leave filters the caller out of both lists. */
  lemma LeaveOrdinary(g: Group, uid: Uid)
    requires !SoleAdmin(g, uid)
    ensures Leave(g, uid) == Remaining(g.(members := Without(g.members, uid),
                                           admins := Without(g.admins, uid)))
  {
  }

  /** A caller who is not a member changes nothing. */
  lemma LeaveNonMember(g: Group, uid: Uid)
    requires WellFormed(g) && uid !in g.members
    ensures Leave(g, uid) == Remaining(g)
  {
  }
}
