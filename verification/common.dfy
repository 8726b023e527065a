/** Shared vocabulary of the chat backend model: optional values, HTTP-style
    replies and the identifiers the document store uses. */
module Common {

  /** Opaque user id issued by the auth provider. */
  type Uid = string

  /** Document id of a group in the `groups` collection. */
  type GroupId = string

  /** Time in integer milliseconds since the epoch. */
  type Millis = int

  datatype Option<+T> = None | Some(value: T)

  /** What a route handler sends back: a 200 carrying a value, or an error
      status with the text of the `error` field. */
  datatype Reply<+T> = Ok(value: T) | Err(status: int, error: string)

  /** JavaScript truthiness of an optional string: absent and "" are falsy. */
  predicate Truthy(s: Option<string>)
  {
    s.Some? && s.value != ""
  }

  /** The document id the store's path parser makes of `id`: it splits on
      '/' and drops empty segments, so one leading and one trailing '/' fall
      away. */
  function DocKey(id: string): (k: string)
    ensures '/' !in id ==> k == id
    ensures k == id || ['/'] + k == id || k + ['/'] == id || ['/'] + k + ['/'] == id
  {
    var a := if id != [] && id[0] == '/' then id[1..] else id;
    assert id != [] && id[0] == '/' ==> id == ['/'] + a;
    if a != [] && a[|a| - 1] == '/' then
      assert a == a[..|a| - 1] + ['/'];
      a[..|a| - 1]
    else a
  }

  /** Whether `collection.doc(id)` succeeds: the store refuses an id that is
      empty or contains "//", and one whose segments, added to the
      collection's, do not name a document (an odd total). */
  predicate Addressable(id: string)
  {
    && (forall i :: 0 <= i < |id| - 1 && id[i] == '/' ==> id[i + 1] != '/')
    && DocKey(id) != []
    && multiset(DocKey(id))['/'] % 2 == 0
  }

  /** An id without '/' names the document of that id. */
  lemma PlainAddressable(id: string)
    requires id != [] && '/' !in id
    ensures Addressable(id) && DocKey(id) == id
  {
    assert multiset(id)['/'] == 0;
  }

  /** One leading or one trailing '/' is dropped: both spellings address the
      same document as the plain id. */
  lemma OuterSlashDropped(id: string)
    requires id != [] && '/' !in id
    ensures DocKey(['/'] + id) == id && Addressable(['/'] + id)
    ensures DocKey(id + ['/']) == id && Addressable(id + ['/'])
  {
    PlainAddressable(id);
    assert (['/'] + id)[1..] == id;
    assert (id + ['/'])[..|id|] == id;
  }

  /** Elements pairwise distinct. */
  predicate NoDup<T(==)>(s: seq<T>)
  {
    forall i, j :: 0 <= i < j < |s| ==> s[i] != s[j]
  }
}
