/** The data service's own logic around the event store: the record
    `createEvent` writes, the undefined-field filter of `updateEvent`, the
    photo record and photo count of `uploadPhotos`, the photo-less events of
    the list view, and the admin flag kept in the browser's key-value
    storage. The store itself is a map from document id to event. */
module DataService {
  import opened Wrappers
  import opened Text
  import opened Types

  /** The storage key of the admin flag. */
  const AuthKey := "pb_is_admin"

  /** The one password `login` accepts. */
  const AdminPassword := "admin123"

  // ------------------------------------------------------------ createEvent

  /** What `createEvent` is given: an event without id, creation time and
      photos. */
  datatype NewEvent = NewEvent(
    title: string,
    date: string,
    location: string,
    description: string,
    coverImage: string,
    organizer: Option<string>,
    category: Option<string>,
    status: Option<Status>,
    tags: Option<seq<string>>)

  /** The event `createEvent` stores and returns, given the new document's
      id and the clock reading `now`. */
  function CreateEvent(input: NewEvent, id: string, now: int): (e: PickleballEvent)
    ensures e.id == id && e.createdAt == now
    ensures e.photos == [] && e.totalPhotos == Some(0)
    ensures e.status.Some?
    ensures input.status.Some? ==> e.status == input.status
    ensures input.status.None? ==> e.status == Some(Completed)
    ensures e.title == input.title && e.date == input.date && e.location == input.location
    ensures e.description == input.description && e.coverImage == input.coverImage
    ensures e.organizer == input.organizer && e.category == input.category && e.tags == input.tags
  {
    PickleballEvent(id, input.title, input.date, input.location, input.description, input.coverImage,
      input.organizer, input.category, Some(input.status.GetOr(Completed)), input.tags, [], Some(0), now)
  }

  // ------------------------------------------------------------ updateEvent

  /** `Object.fromEntries(Object.entries(patch).filter(([_, v]) => v !== undefined))`,
      with `None` standing for `undefined`. */
  function CleanData<V>(patch: map<string, Option<V>>): (clean: map<string, V>)
    ensures forall k :: k in clean <==> k in patch && patch[k].Some?
    ensures forall k :: k in clean ==> patch[k] == Some(clean[k])
  {
    map k | k in patch && patch[k].Some? :: patch[k].value
  }

  /** The stored document after `updateDoc` with the cleaned patch: defined
      fields are overwritten; every other field keeps its value, so an
      `undefined` in the patch never erases a stored field. */
  function ApplyUpdate<V>(doc: map<string, V>, patch: map<string, Option<V>>): (updated: map<string, V>)
    ensures forall k :: k in updated <==> k in doc || (k in patch && patch[k].Some?)
    ensures forall k :: k in patch && patch[k].Some? ==> updated[k] == patch[k].value
    ensures forall k :: k in doc && (k !in patch || patch[k].None?) ==> updated[k] == doc[k]
  {
    doc + CleanData(patch)
  }

  /** Updating twice with the same patch is updating once. */
  lemma ApplyUpdateIdempotent<V>(doc: map<string, V>, patch: map<string, Option<V>>)
    ensures ApplyUpdate(ApplyUpdate(doc, patch), patch) == ApplyUpdate(doc, patch)
  {
    var once := ApplyUpdate(doc, patch);
    var twice := ApplyUpdate(once, patch);
    assert forall k :: k in twice <==> k in once;
    assert forall k :: k in twice ==> twice[k] == once[k];
  }

  // ------------------------------------------------------------ uploadPhotos

  /** The document written for one uploaded photo. */
  datatype PhotoRecord = PhotoRecord(url: string, caption: string, tags: seq<string>, createdAt: int)

  /** The record for `draft`, stored at `url` at time `now`: its tag text is
      split on commas, trimmed, and empty pieces are dropped. */
  function PhotoRecordFor(draft: PhotoUploadDraft, url: string, now: int): (r: PhotoRecord)
    ensures r.url == url && r.caption == draft.caption && r.createdAt == now
    ensures forall i :: 0 <= i < |r.tags| ==> r.tags[i] != "" && IsTrimmed(r.tags[i]) && ',' !in r.tags[i]
  {
    PhotoRecord(url, draft.caption, ParseTags(draft.tags), now)
  }

  /** Tags typed as "a, b, c" are stored as exactly those tags. */
  lemma PhotoTagsRoundTrip(draft: PhotoUploadDraft, url: string, now: int, tags: seq<string>)
    requires forall i :: 0 <= i < |tags| ==> tags[i] != "" && IsTrimmed(tags[i]) && ',' !in tags[i]
    requires draft.tags == Join(tags, ", ")
    ensures PhotoRecordFor(draft, url, now).tags == tags
  {
    ParseTagsRoundTrip(tags);
  }

  /** `totalPhotos || 0`. */
  function PhotoCount(e: PickleballEvent): int {
    e.totalPhotos.GetOr(0)
  }

  /** The events after the count update that ends `uploadPhotos` with
      `count` drafts: only an existing event document is updated. */
  function AfterUpload(events: map<string, PickleballEvent>, eventId: string, count: nat): (r: map<string, PickleballEvent>)
    ensures r.Keys == events.Keys
    ensures forall id :: id in events && id != eventId ==> r[id] == events[id]
    ensures eventId in events ==>
      r[eventId] == events[eventId].(totalPhotos := Some(PhotoCount(events[eventId]) + count))
  {
    if eventId in events then
      events[eventId := events[eventId].(totalPhotos := Some(PhotoCount(events[eventId]) + count))]
    else events
  }

  /** Two uploads to an event add up. */
  lemma UploadsAccumulate(events: map<string, PickleballEvent>, eventId: string, a: nat, b: nat)
    ensures AfterUpload(AfterUpload(events, eventId, a), eventId, b) == AfterUpload(events, eventId, a + b)
  {
  }

  /** A new event counts exactly the photos uploaded to it. */
  lemma NewEventCountsUploads(input: NewEvent, id: string, now: int, count: nat)
    ensures AfterUpload(map[id := CreateEvent(input, id, now)], id, count)[id].totalPhotos == Some(count)
  {
  }

  // --------------------------------------------------------------- getEvents

  /** The list view: each stored document with its id and no photos. */
  function ListEvents(docs: seq<(string, PickleballEvent)>): (events: seq<PickleballEvent>)
    ensures |events| == |docs|
    ensures forall i :: 0 <= i < |docs| ==> events[i].photos == [] && events[i].id == docs[i].0
    ensures forall i :: 0 <= i < |docs| ==> events[i] == docs[i].1.(id := docs[i].0, photos := [])
  {
    seq(|docs|, i requires 0 <= i < |docs| => docs[i].1.(id := docs[i].0, photos := []))
  }

  // ------------------------------------------------------------- admin flag

  /** The browser's key-value storage, which holds the admin flag. */
  class Storage {
    var entries: map<string, string>

    constructor(initial: map<string, string>)
      ensures entries == initial
    {
      entries := initial;
    }

    /** `isAdmin`: the flag is stored as the string "true". */
    function IsAdmin(): (admin: bool)
      reads this
      ensures admin ==> AuthKey in entries
      ensures AuthKey in entries && entries[AuthKey] != "true" ==> !admin
    {
      AuthKey in entries && entries[AuthKey] == "true"
    }

    /** `login`: only the admin password sets the flag; a wrong password
        changes nothing. */
    method Login(password: string) returns (ok: bool)
      modifies this
      ensures ok <==> password == AdminPassword
      ensures ok ==> entries == old(entries)[AuthKey := "true"] && IsAdmin()
      ensures !ok ==> entries == old(entries)
    {
      if password == AdminPassword {
        entries := entries[AuthKey := "true"];
        return true;
      }
      return false;
    }

    /** `logout`: removes the flag and nothing else. */
    method Logout()
      modifies this
      ensures entries == old(entries) - {AuthKey}
      ensures !IsAdmin()
    {
      entries := entries - {AuthKey};
    }
  }

  /** Logging in with the password and then out leaves no admin flag, and
      every other entry as it was. */
  method LoginThenLogout(storage: Storage)
    modifies storage
    ensures !storage.IsAdmin()
    ensures storage.entries == old(storage.entries) - {AuthKey}
  {
    var ok := storage.Login(AdminPassword);
    assert ok && storage.IsAdmin();
    storage.Logout();
  }
}
