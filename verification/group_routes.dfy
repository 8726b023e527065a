/** The group store and the route handlers that read and change it: the
    GET/POST/DELETE handlers of the members route and the GET/POST handlers
    of the groups route. Each handler authenticates first; a rejected token
    surfaces as the 500 of the handler's catch. */
module GroupRoutes {
  import opened Common
  import opened Identity
  import opened Groups
  import opened Listing

  /** One entry of the member listing. */
  datatype MemberInfo = MemberInfo(uid: Uid, email: string, isAdmin: bool)

  /** Firestore's `doc(id)` throws on a missing id and on one that does not
      name a document; otherwise it addresses `DocKey(id)`. */
  predicate DocIdOk(id: Option<GroupId>)
  {
    id.Some? && Addressable(id.value)
  }

  class GroupStore {
    /** The `groups` collection. */
    var groups: map<GroupId, Group>
    /** The `messages` collection, in insertion order. */
    var messages: seq<Message>

    /** Every stored group is well-formed. */
    ghost predicate Valid()
      reads this
    {
      forall id :: id in groups ==> WellFormed(groups[id])
    }

    constructor (messages: seq<Message>)
      ensures Valid() && groups == map[] && this.messages == messages
    {
      groups := map[];
      this.messages := messages;
    }

    /** GET members: the stored member list in stored order, each with its
        email and whether it is listed in `admins`. */
    method Members(header: Option<string>, auth: AuthProvider, groupId: Option<GroupId>)
      returns (r: Reply<seq<MemberInfo>>)
      ensures Authenticate(header, auth).Err? ==> r.Err? && r.status == Authenticate(header, auth).status
      ensures Authenticate(header, auth).Ok? && !Truthy(groupId) ==> r == Err(400, "Group ID is required")
      ensures (Authenticate(header, auth).Ok? && DocIdOk(groupId) && DocKey(groupId.value) !in groups) ==>
                r == Err(404, "Group not found")
      ensures (Authenticate(header, auth).Ok? && Truthy(groupId) &&
               (!DocIdOk(groupId) ||
                (DocKey(groupId.value) in groups &&
                 exists u :: u in groups[DocKey(groupId.value)].members && u !in auth.emails))) ==>
                r == Err(500, "Internal Server Error")
      ensures r.Ok? <==> Authenticate(header, auth).Ok? && DocIdOk(groupId) && DocKey(groupId.value) in groups &&
                         forall u :: u in groups[DocKey(groupId.value)].members ==> u in auth.emails
      ensures r.Err? ==> r.status in {400, 401, 404, 500}
      ensures r.Ok? ==> var g := groups[DocKey(groupId.value)];
                        && |r.value| == |g.members|
                        && forall i :: 0 <= i < |r.value| ==>
                             r.value[i] == MemberInfo(g.members[i], auth.emails[g.members[i]], g.members[i] in g.admins)
    {
      var who := Authenticate(header, auth);
      if who.Err? {
        return Err(who.status, who.error);
      }
      if !Truthy(groupId) {
        return Err(400, "Group ID is required");
      }
      if !DocIdOk(groupId) {
        return Err(500, "Internal Server Error");
      }
      if DocKey(groupId.value) !in groups {
        return Err(404, "Group not found");
      }
      var g := groups[DocKey(groupId.value)];
      var out: seq<MemberInfo> := [];
      var i := 0;
      while i < |g.members|
        invariant 0 <= i <= |g.members|
        invariant |out| == i
        invariant forall j :: 0 <= j < i ==> g.members[j] in auth.emails
        invariant forall j :: 0 <= j < i ==>
                    out[j] == MemberInfo(g.members[j], auth.emails[g.members[j]], g.members[j] in g.admins)
      {
        var uid := g.members[i];
        if uid !in auth.emails {
          // getUser throws for an unknown uid
          return Err(500, "Internal Server Error");
        }
        out := out + [MemberInfo(uid, auth.emails[uid], uid in g.admins)];
        i := i + 1;
      }
      return Ok(out);
    }

    /** POST members: look the email up, then append its uid to the group's
        members unless it is already there. */
    method AddMember(header: Option<string>, auth: AuthProvider, groupId: Option<GroupId>, email: string)
      returns (r: Reply<()>)
      requires Valid()
      modifies this
      ensures Valid() && messages == old(messages)
      ensures r.Ok? <==> Authenticate(header, auth).Ok? && email in auth.uidByEmail && DocIdOk(groupId) &&
                         DocKey(groupId.value) in old(groups) && auth.uidByEmail[email] !in old(groups)[DocKey(groupId.value)].members
      ensures r.Ok? ==> groups == old(groups)[DocKey(groupId.value) := old(groups)[DocKey(groupId.value)].(
                          members := old(groups)[DocKey(groupId.value)].members + [auth.uidByEmail[email]])]
      ensures r.Err? ==> groups == old(groups)
      ensures Authenticate(header, auth).Err? ==> r.Err? && r.status == Authenticate(header, auth).status
      ensures Authenticate(header, auth).Ok? && email !in auth.uidByEmail ==> r == Err(404, "User not found")
      ensures Authenticate(header, auth).Ok? && email in auth.uidByEmail && !DocIdOk(groupId) ==>
                r == Err(500, "Internal Server Error")
      ensures (Authenticate(header, auth).Ok? && email in auth.uidByEmail && DocIdOk(groupId) &&
               DocKey(groupId.value) !in old(groups)) ==> r == Err(404, "Group not found")
      ensures (Authenticate(header, auth).Ok? && email in auth.uidByEmail && DocIdOk(groupId) &&
               DocKey(groupId.value) in old(groups) && auth.uidByEmail[email] in old(groups)[DocKey(groupId.value)].members) ==>
                r == Err(400, "User already in group")
    {
      var who := Authenticate(header, auth);
      if who.Err? {
        return Err(who.status, who.error);
      }
      if email !in auth.uidByEmail {
        return Err(404, "User not found");
      }
      var uid := auth.uidByEmail[email];
      if !DocIdOk(groupId) {
        return Err(500, "Internal Server Error");
      }
      var id := DocKey(groupId.value);
      if id !in groups {
        return Err(404, "Group not found");
      }
      var g := groups[id];
      AddPreservesWellFormed(g, uid);
      match Groups.AddMember(g, uid)
      case AlreadyMember =>
        return Err(400, "User already in group");
      case Added(h) =>
        groups := groups[id := h];
        return Ok(());
    }

    /** DELETE members: the caller leaves the group, handing the admin role
        to the first other member or deleting the group as Groups.Leave
        decides. */
    method LeaveGroup(header: Option<string>, auth: AuthProvider, groupId: Option<GroupId>)
      returns (r: Reply<()>)
      requires Valid()
      modifies this
      ensures Valid() && messages == old(messages)
      ensures Authenticate(header, auth).Err? ==> r.Err? && r.status == Authenticate(header, auth).status
      ensures Authenticate(header, auth).Ok? && !DocIdOk(groupId) ==> r == Err(500, "Internal Server Error")
      ensures (Authenticate(header, auth).Ok? && DocIdOk(groupId) && DocKey(groupId.value) !in old(groups)) ==>
                r == Err(404, "Group not found")
      ensures r.Ok? <==> Authenticate(header, auth).Ok? && DocIdOk(groupId) && DocKey(groupId.value) in old(groups)
      ensures r.Err? ==> groups == old(groups)
      ensures r.Ok? ==> var id := DocKey(groupId.value);
                        match Leave(old(groups)[id], Authenticate(header, auth).value)
                        case Remaining(h) => groups == old(groups)[id := h]
                        case Dissolved => groups == old(groups) - {id}
                        case NoSuccessor => false
    {
      var who := Authenticate(header, auth);
      if who.Err? {
        return Err(who.status, who.error);
      }
      if !DocIdOk(groupId) {
        return Err(500, "Internal Server Error");
      }
      var id := DocKey(groupId.value);
      if id !in groups {
        return Err(404, "Group not found");
      }
      var g := groups[id];
      LeavePreservesWellFormed(g, who.value);
      match Leave(g, who.value) {
        case Remaining(h) =>
          groups := groups[id := h];
        case Dissolved =>
          groups := groups - {id};
        case NoSuccessor =>
          // the update with an undefined admin throws
          return Err(500, "Internal Server Error");
      }
      return Ok(());
    }

    /** POST groups: store a new group whose only member and admin is the
        caller, under a document id not yet in use. */
    method CreateGroup(header: Option<string>, auth: AuthProvider, name: string, freshId: GroupId, now: Millis)
      returns (r: Reply<GroupId>)
      requires Valid() && freshId !in groups
      modifies this
      ensures Valid() && messages == old(messages)
      ensures r.Ok? <==> Authenticate(header, auth).Ok?
      ensures r.Err? ==> r.status == Authenticate(header, auth).status && groups == old(groups)
      ensures r.Ok? ==> r.value == freshId &&
                        groups == old(groups)[freshId := NewGroup(name, Authenticate(header, auth).value, now)]
    {
      var who := Authenticate(header, auth);
      if who.Err? {
        return Err(who.status, who.error);
      }
      groups := groups[freshId := NewGroup(name, who.value, now)];
      return Ok(freshId);
    }

    /** Some group of the caller has a latest message whose sender id the
        store cannot address. */
    predicate SenderUnaddressable(uid: Uid)
      reads this
    {
      exists id :: id in groups && uid in groups[id].members && !SenderAddressable(messages, id)
    }

    /** GET groups: every group whose members contain the caller, each once,
        with its latest message. The store's result order is left open. */
    method ListGroups(header: Option<string>, auth: AuthProvider, docs: ProfileDocs)
      returns (r: Reply<seq<GroupView>>)
      ensures Authenticate(header, auth).Err? ==> r.Err? && r.status == Authenticate(header, auth).status
      ensures Authenticate(header, auth).Ok? && SenderUnaddressable(Authenticate(header, auth).value) ==>
                r == Err(500, "Internal Server Error")
      ensures r.Ok? <==> Authenticate(header, auth).Ok? && !SenderUnaddressable(Authenticate(header, auth).value)
      ensures r.Ok? ==> var uid := Authenticate(header, auth).value;
                        && (forall v :: v in r.value ==>
                              v.id in groups && uid in groups[v.id].members &&
                              v == View(v.id, groups[v.id], messages, docs))
                        && (forall id :: id in groups && uid in groups[id].members ==>
                              exists v :: v in r.value && v.id == id)
                        && (forall i, j :: 0 <= i < j < |r.value| ==> r.value[i].id != r.value[j].id)
    {
      var who := Authenticate(header, auth);
      if who.Err? {
        return Err(who.status, who.error);
      }
      var uid := who.value;
      var out: seq<GroupView> := [];
      var rest := groups.Keys;
      while rest != {}
        invariant rest <= groups.Keys
        invariant forall v :: v in out ==>
                    v.id in groups && v.id !in rest && uid in groups[v.id].members &&
                    v == View(v.id, groups[v.id], messages, docs)
        invariant forall id :: id in groups && id !in rest && uid in groups[id].members ==>
                    exists v :: v in out && v.id == id
        invariant forall i, j :: 0 <= i < j < |out| ==> out[i].id != out[j].id
        invariant forall id :: id in groups && id !in rest && uid in groups[id].members ==>
                    SenderAddressable(messages, id)
        decreases rest
      {
        var id :| id in rest;
        if uid in groups[id].members {
          if !SenderAddressable(messages, id) {
            // `doc(userId)` throws and Promise.all rejects
            return Err(500, "Internal Server Error");
          }
          out := out + [View(id, groups[id], messages, docs)];
        }
        rest := rest - {id};
      }
      return Ok(out);
    }
  }

  /** A group's whole life: A creates it and adds B by email; A leaves and B
      is promoted; B leaves and the group is gone. */
  method GroupLifetime(store: GroupStore, auth: AuthProvider, headerA: Option<string>, headerB: Option<string>,
                       emailB: string, id: GroupId, now: Millis)
    returns (afterAdd: Group, afterHandOff: Group)
    requires store.Valid() && id !in store.groups && id != "" && '/' !in id
    requires Authenticate(headerA, auth).Ok? && Authenticate(headerB, auth).Ok?
    requires emailB in auth.uidByEmail && auth.uidByEmail[emailB] == Authenticate(headerB, auth).value
    requires Authenticate(headerA, auth).value != Authenticate(headerB, auth).value
    modifies store
    ensures var a, b := Authenticate(headerA, auth).value, Authenticate(headerB, auth).value;
            && afterAdd.name == "team" && afterAdd.members == [a, b] && afterAdd.admins == [a]
            && afterHandOff.name == "team" && afterHandOff.members == afterHandOff.admins == [b]
    ensures store.Valid() && id !in store.groups
  {
    var a := Authenticate(headerA, auth).value;
    var b := Authenticate(headerB, auth).value;
    PlainAddressable(id);
    var created := store.CreateGroup(headerA, auth, "team", id, now);
    var added := store.AddMember(headerA, auth, Some(id), emailB);
    afterAdd := store.groups[id];
    var left := store.LeaveGroup(headerA, auth, Some(id));
    assert Without([a, b], a) == [b] by { WithoutSplit([], a, [b]); }
    afterHandOff := store.groups[id];
    left := store.LeaveGroup(headerB, auth, Some(id));
  }
}
