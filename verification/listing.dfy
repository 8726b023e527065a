/** What the groups GET route attaches to each group: the group's latest
    message, its sender's display name and the file flag. */
module Listing {
  import opened Common
  import opened Groups

  /** A document of the `messages` collection. */
  datatype Message = Message(
    groupId: GroupId,
    userId: Uid,
    text: Option<string>,
    timestamp: Millis,
    fileId: Option<string>,
    fileName: Option<string>,
    fileType: Option<string>)

  /** `users/{uid}/profile/info`: the sender's first and last name. */
  datatype NameInfo = NameInfo(firstName: string, lastName: string)

  /** The two profile collections the route reads for a sender: the
      `username` field of `profiles/{uid}` (absent when the document or the
      field is missing) and the `users/{uid}/profile/info` document. */
  datatype ProfileDocs = ProfileDocs(usernames: map<Uid, string>, infos: map<Uid, NameInfo>)

  datatype LastMessage = LastMessage(
    text: Option<string>,
    timestamp: Millis,
    sender: string,
    fileName: Option<string>,
    fileType: Option<string>,
    isFile: bool)

  datatype GroupView = GroupView(
    id: GroupId,
    name: string,
    profileUrl: Option<string>,
    createdAt: Millis,
    createdBy: Uid,
    admins: seq<Uid>,
    members: seq<Uid>,
    lastMessage: Option<LastMessage>)

  /** The message the query `where groupId == gid, orderBy timestamp desc,
      limit 1` yields: one of the group's messages with the greatest
      timestamp (among equal timestamps, the one stored last). */
  function Latest(msgs: seq<Message>, gid: GroupId): (r: Option<Message>)
    ensures r.None? <==> forall i :: 0 <= i < |msgs| ==> msgs[i].groupId != gid
    ensures r.Some? ==> r.value in msgs && r.value.groupId == gid
    ensures r.Some? ==> forall i :: 0 <= i < |msgs| && msgs[i].groupId == gid ==>
                                    msgs[i].timestamp <= r.value.timestamp
    decreases |msgs|
  {
    if msgs == [] then None
    else
      var init := msgs[..|msgs| - 1];
      var last := msgs[|msgs| - 1];
      var best := Latest(init, gid);
      assert forall i :: 0 <= i < |msgs| - 1 ==> msgs[i] == init[i];
      if last.groupId != gid then best
      else if best.Some? && best.value.timestamp > last.timestamp then best
      else Some(last)
  }

  /** The sender of the group's latest message, if any, has an id the store
      can look up. */
  predicate SenderAddressable(msgs: seq<Message>, gid: GroupId)
  {
    Latest(msgs, gid).None? || Addressable(Latest(msgs, gid).value.userId)
  }

  /** Display name of a sender: "first last" when the info document exists,
      else a non-empty `username`, else the raw uid. Both documents are read
      under the key the store makes of the uid. */
  function SenderName(uid: Uid, docs: ProfileDocs): (r: string)
    ensures var k := DocKey(uid);
            && (k in docs.infos ==> r == docs.infos[k].firstName + " " + docs.infos[k].lastName)
            && (k !in docs.infos && k in docs.usernames && docs.usernames[k] != "" ==> r == docs.usernames[k])
            && (k !in docs.infos && (k !in docs.usernames || docs.usernames[k] == "") ==> r == uid)
  {
    var k := DocKey(uid);
    if k in docs.infos then docs.infos[k].firstName + " " + docs.infos[k].lastName
    else if k in docs.usernames && docs.usernames[k] != "" then docs.usernames[k]
    else uid
  }

  /** The summary the route builds from a message; `isFile` is `!!fileId`. */
  function Summary(m: Message, docs: ProfileDocs): (r: LastMessage)
    ensures r.isFile <==> Truthy(m.fileId)
    ensures r.sender == SenderName(m.userId, docs)
    ensures r.text == m.text && r.timestamp == m.timestamp
    ensures r.fileName == m.fileName && r.fileType == m.fileType
  {
    LastMessage(m.text, m.timestamp, SenderName(m.userId, docs), m.fileName, m.fileType, Truthy(m.fileId))
  }

  /** The entry of the groups listing for group `id`. */
  function View(id: GroupId, g: Group, msgs: seq<Message>, docs: ProfileDocs): (v: GroupView)
    ensures v.id == id && v.members == g.members && v.admins == g.admins
    ensures v.name == g.name && v.profileUrl == g.profileUrl
    ensures v.createdAt == g.createdAt && v.createdBy == g.createdBy
    ensures v.lastMessage.None? <==> forall i :: 0 <= i < |msgs| ==> msgs[i].groupId != id
    ensures v.lastMessage.Some? ==>
              exists m :: m in msgs && m.groupId == id && v.lastMessage.value == Summary(m, docs) &&
                          forall i :: 0 <= i < |msgs| && msgs[i].groupId == id ==> msgs[i].timestamp <= m.timestamp
  {
    var last := Latest(msgs, id);
    var summary := if last.Some? then Some(Summary(last.value, docs)) else None;
    GroupView(id, g.name, g.profileUrl, g.createdAt, g.createdBy, g.admins, g.members, summary)
  }
}
