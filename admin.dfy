/** The admin page's own rules: turning the new-event form into the event
    to store, and the list of photos staged for upload with its modal and
    target event. */
module Admin {
  import opened Wrappers
  import opened Seqs
  import opened Text
  import opened Types
  import opened DataService
  import Home

  // -------------------------------------------------------- the event form

  /** The new-event form, a partial event: a field may be missing or hold
      whatever was typed. Tags are typed separately as one string. */
  datatype EventForm = EventForm(
    title: Option<string>,
    date: Option<string>,
    location: Option<string>,
    description: Option<string>,
    coverImage: Option<string>,
    organizer: Option<string>,
    category: Option<string>,
    status: Option<Status>)

  /** A JavaScript truthy string: present and not empty. */
  predicate Filled(o: Option<string>) {
    o.Some? && o.value != ""
  }

  /** The form as it is reset after an event is created. */
  const BlankForm := EventForm(Some(""), Some(""), Some(""), Some(""), Some(""), Some(""), Some(""), Some(Completed))

  const DefaultOrganizer := "PickleballBH"
  const AvatarBase := "https://ui-avatars.com/api/?name="
  const AvatarOptions := "&background=CCFF00&color=0f172a&size=800"

  /** The generated cover: an avatar image named after the title, with
      `encode` standing for `encodeURIComponent`. */
  function AvatarUrl(title: string, encode: string -> string): (url: string)
    ensures IsPrefix(AvatarBase, url) && IsSuffix(AvatarOptions, url)
    ensures Contains(url, encode(title))
  {
    ContainsInfix(AvatarBase, encode(title), AvatarOptions);
    AvatarBase + encode(title) + AvatarOptions
  }

  /** The event `handleCreateEvent` hands to `createEvent`, or `None` when
      title, date or location is missing or empty and nothing is stored.
      Missing fields take their defaults and the tag text is parsed. */
  function CreateEventRequest(form: EventForm, tagsInput: string, encode: string -> string): (request: Option<NewEvent>)
    ensures request.None? <==> !Filled(form.title) || !Filled(form.date) || !Filled(form.location)
  {
    if !Filled(form.title) || !Filled(form.date) || !Filled(form.location) then None
    else
      var title := form.title.value;
      Some(NewEvent(
        title,
        form.date.value,
        form.location.value,
        OrElse(form.description, ""),
        OrElse(form.coverImage, AvatarUrl(title, encode)),
        Some(OrElse(form.organizer, DefaultOrganizer)),
        Some(OrElse(form.category, Home.DefaultCategory)),
        Some(form.status.GetOr(Completed)),
        Some(ParseTags(tagsInput))))
  }

  /** The fields of an accepted form: the required ones as typed, the
      optional ones defaulted, the tags parsed and an empty cover replaced by
      the avatar URL. */
  lemma CreateEventRequestFields(form: EventForm, tagsInput: string, encode: string -> string)
    requires Filled(form.title) && Filled(form.date) && Filled(form.location)
    ensures var request := CreateEventRequest(form, tagsInput, encode);
      request.Some? &&
      request.value.title == form.title.value && request.value.date == form.date.value &&
      request.value.location == form.location.value &&
      request.value.description == OrElse(form.description, "") &&
      request.value.organizer == Some(OrElse(form.organizer, DefaultOrganizer)) &&
      request.value.category == Some(OrElse(form.category, Home.DefaultCategory)) &&
      request.value.status == Some(form.status.GetOr(Completed)) &&
      request.value.tags == Some(ParseTags(tagsInput)) &&
      request.value.coverImage == OrElse(form.coverImage, AvatarUrl(form.title.value, encode))
  {
  }

  /** The reset form cannot be submitted again. */
  lemma BlankFormIsRejected(tagsInput: string, encode: string -> string)
    ensures CreateEventRequest(BlankForm, tagsInput, encode) == None
  {
  }

  /** Tags typed as "a, b, c" are stored as exactly those tags. */
  lemma EventTagsRoundTrip(form: EventForm, tags: seq<string>, encode: string -> string)
    requires Filled(form.title) && Filled(form.date) && Filled(form.location)
    requires forall i :: 0 <= i < |tags| ==> tags[i] != "" && IsTrimmed(tags[i]) && ',' !in tags[i]
    ensures CreateEventRequest(form, Join(tags, ", "), encode).value.tags == Some(tags)
  {
    ParseTagsRoundTrip(tags);
  }

  /** An event created from the admin form is stored complete: organizer,
      category and cover are never empty, the status is set, no photo is
      counted yet, and every tag is non-empty and trimmed. */
  lemma CreatedEventIsComplete(form: EventForm, tagsInput: string, encode: string -> string, id: string, now: int)
    requires CreateEventRequest(form, tagsInput, encode).Some?
    ensures var e := CreateEvent(CreateEventRequest(form, tagsInput, encode).value, id, now);
      Filled(e.organizer) && Filled(e.category) && e.coverImage != "" && e.status.Some? &&
      e.totalPhotos == Some(0) && e.photos == [] && e.tags.Some? &&
      (forall i :: 0 <= i < |e.tags.value| ==> e.tags.value[i] != "" && IsTrimmed(e.tags.value[i]))
  {
    var title := form.title.value;
    assert IsPrefix(AvatarBase, AvatarUrl(title, encode));
  }

  /** An event created here always carries a category, so its own pill on the
      home page shows it even with the category test as written. */
  lemma CreatedEventShownUnderItsPill(form: EventForm, tagsInput: string, encode: string -> string, id: string, now: int)
    requires CreateEventRequest(form, tagsInput, encode).Some?
    ensures var e := CreateEvent(CreateEventRequest(form, tagsInput, encode).value, id, now);
      Home.VisibleEvents([e], Home.CategoryLabel(e), "") == [e]
  {
    var e := CreateEvent(CreateEventRequest(form, tagsInput, encode).value, id, now);
    CreatedEventIsComplete(form, tagsInput, encode, id, now);
    Home.ContainsItself(ToLower(e.category.value));
    assert Home.MatchesCategory(e, Home.CategoryLabel(e));
    var shown := Home.VisibleEvents([e], Home.CategoryLabel(e), "");
    assert e in shown;
    assert |shown| <= 1 by {
      assert IsSubsequence(shown, [e]);
      SubsequenceLength(shown, [e]);
    }
    assert shown == [shown[0]];
  }

  // -------------------------------------------------------- staged photos

  /** The drafts made for freshly picked files: empty caption and tags, and a
      preview URL from `objectUrl` (standing for `URL.createObjectURL`). */
  function NewDrafts(files: seq<FileRef>, objectUrl: FileRef -> string): (drafts: seq<PhotoUploadDraft>)
    ensures |drafts| == |files|
    ensures forall i :: 0 <= i < |files| ==>
      drafts[i].file == files[i] && drafts[i].preview == objectUrl(files[i]) &&
      drafts[i].caption == "" && drafts[i].tags == ""
  {
    seq(|files|, i requires 0 <= i < |files| => PhotoUploadDraft(files[i], objectUrl(files[i]), "", ""))
  }

  /** The two text fields of a draft the staging modal edits. */
  datatype DraftField = Caption | Tags

  /** `{ ...draft, [field]: value }`. */
  function WithField(draft: PhotoUploadDraft, field: DraftField, value: string): (d: PhotoUploadDraft)
    ensures d.file == draft.file && d.preview == draft.preview
    ensures field == Caption ==> d.caption == value && d.tags == draft.tags
    ensures field == Tags ==> d.tags == value && d.caption == draft.caption
  {
    match field
    case Caption => draft.(caption := value)
    case Tags => draft.(tags := value)
  }

  /** `s` without its element at `index`, the others in order. */
  function Without<T>(s: seq<T>, index: nat): (r: seq<T>)
    requires index < |s|
    ensures |r| == |s| - 1
    ensures forall j :: 0 <= j < index ==> r[j] == s[j]
    ensures forall j :: index <= j < |r| ==> r[j] == s[j + 1]
  {
    s[..index] + s[index + 1..]
  }

  /** Removing one element loses that element and no other. */
  lemma WithoutLosesOnlyThat<T>(s: seq<T>, index: nat)
    requires index < |s|
    ensures multiset(Without(s, index)) + multiset{s[index]} == multiset(s)
  {
    assert s == s[..index] + [s[index]] + s[index + 1..];
  }

  /** `removeDraft`'s `[...stagedFiles]` copy followed by `splice(index, 1)`
      on the copy: the later drafts move down one slot and the last slot is
      dropped, as the ECMAScript definition of `splice` does it. */
  method SpliceOut(drafts: seq<PhotoUploadDraft>, index: nat) returns (updated: seq<PhotoUploadDraft>)
    requires index < |drafts|
    ensures updated == Without(drafts, index)
  {
    var a := new PhotoUploadDraft[|drafts|](i requires 0 <= i < |drafts| => drafts[i]);
    var k := index;
    while k < a.Length - 1
      invariant index <= k <= a.Length - 1
      invariant forall j :: 0 <= j < index ==> a[j] == drafts[j]
      invariant forall j :: index <= j < k ==> a[j] == drafts[j + 1]
      invariant forall j :: k <= j < a.Length ==> a[j] == drafts[j]
      decreases a.Length - k
    {
      a[k] := a[k + 1];
      k := k + 1;
    }
    updated := a[..a.Length - 1];
  }

  // ------------------------------------------------------------- the page

  /** The admin page's form and upload state. */
  class AdminPage {
    var newEvent: EventForm
    var tagsInput: string
    var isModalOpen: bool
    var uploadEventId: Option<string>
    var stagedFiles: seq<PhotoUploadDraft>
    var isUploadModalOpen: bool

    constructor()
      ensures newEvent == BlankForm && tagsInput == "" && !isModalOpen
      ensures uploadEventId == None && stagedFiles == [] && !isUploadModalOpen
    {
      newEvent := BlankForm;
      tagsInput := "";
      isModalOpen := false;
      uploadEventId := None;
      stagedFiles := [];
      isUploadModalOpen := false;
    }

    /** `handleCreateEvent`: the event sent to the store, if any. After a
        submission the form is reset and its modal closed; a rejected form
        changes nothing. */
    method SubmitEvent(encode: string -> string) returns (request: Option<NewEvent>)
      modifies this
      ensures request == CreateEventRequest(old(newEvent), old(tagsInput), encode)
      ensures request.None? ==>
        newEvent == old(newEvent) && tagsInput == old(tagsInput) && isModalOpen == old(isModalOpen)
      ensures request.Some? ==> newEvent == BlankForm && tagsInput == "" && !isModalOpen
      ensures uploadEventId == old(uploadEventId) && stagedFiles == old(stagedFiles)
      ensures isUploadModalOpen == old(isUploadModalOpen)
    {
      request := CreateEventRequest(newEvent, tagsInput, encode);
      if request.Some? {
        isModalOpen := false;
        newEvent := BlankForm;
        tagsInput := "";
      }
    }

    /** The upload button of an event row: it becomes the target. */
    method ChooseEvent(id: string)
      modifies this
      ensures uploadEventId == Some(id)
      ensures stagedFiles == old(stagedFiles) && isUploadModalOpen == old(isUploadModalOpen)
      ensures newEvent == old(newEvent) && tagsInput == old(tagsInput) && isModalOpen == old(isModalOpen)
    {
      uploadEventId := Some(id);
    }

    /** `handleFileSelect`: without a file list or a target nothing happens;
        otherwise one draft per file is appended after the staged ones and
        the staging modal opens (even for an empty list). */
    method FileSelect(files: Option<seq<FileRef>>, objectUrl: FileRef -> string)
      modifies this
      ensures files.None? || !Filled(old(uploadEventId)) ==>
        stagedFiles == old(stagedFiles) && isUploadModalOpen == old(isUploadModalOpen)
      ensures files.Some? && Filled(old(uploadEventId)) ==>
        stagedFiles == old(stagedFiles) + NewDrafts(files.value, objectUrl) && isUploadModalOpen
      ensures uploadEventId == old(uploadEventId)
      ensures newEvent == old(newEvent) && tagsInput == old(tagsInput) && isModalOpen == old(isModalOpen)
    {
      if files.None? || !Filled(uploadEventId) {
        return;
      }
      stagedFiles := stagedFiles + NewDrafts(files.value, objectUrl);
      isUploadModalOpen := true;
    }

    /** `updateDraft`: one field of one draft changes; the list keeps its
        length and every other draft. */
    method UpdateDraft(index: nat, field: DraftField, value: string)
      requires index < |stagedFiles|
      modifies this
      ensures |stagedFiles| == |old(stagedFiles)|
      ensures forall j :: 0 <= j < |stagedFiles| && j != index ==> stagedFiles[j] == old(stagedFiles)[j]
      ensures stagedFiles[index] == WithField(old(stagedFiles)[index], field, value)
      ensures uploadEventId == old(uploadEventId) && isUploadModalOpen == old(isUploadModalOpen)
      ensures newEvent == old(newEvent) && tagsInput == old(tagsInput) && isModalOpen == old(isModalOpen)
    {
      var updated := new PhotoUploadDraft[|stagedFiles|](i requires 0 <= i < |stagedFiles| reads this => stagedFiles[i]);
      updated[index] := WithField(updated[index], field, value);
      stagedFiles := updated[..];
    }

    /** `removeDraft`: exactly draft `index` goes, the rest keep their order,
        and the modal closes when nothing is left. */
    method RemoveDraft(index: nat)
      requires index < |stagedFiles|
      modifies this
      ensures stagedFiles == Without(old(stagedFiles), index)
      ensures isUploadModalOpen == (old(isUploadModalOpen) && stagedFiles != [])
      ensures uploadEventId == old(uploadEventId)
      ensures newEvent == old(newEvent) && tagsInput == old(tagsInput) && isModalOpen == old(isModalOpen)
    {
      var updated := SpliceOut(stagedFiles, index);
      stagedFiles := updated;
      if |updated| == 0 {
        isUploadModalOpen := false;
      }
    }

    /** `confirmUpload`: without a target or with nothing staged, nothing is
        sent. Otherwise the target and the drafts are sent; when the store
        call `succeeded`, staging is emptied, the modal closed and the target
        cleared, and when it failed everything stays for another try. */
    method ConfirmUpload(succeeded: bool) returns (sent: Option<(string, seq<PhotoUploadDraft>)>)
      modifies this
      ensures sent.Some? <==> Filled(old(uploadEventId)) && old(stagedFiles) != []
      ensures sent.Some? ==> sent.value == (old(uploadEventId).value, old(stagedFiles))
      ensures sent.Some? && succeeded ==>
        stagedFiles == [] && !isUploadModalOpen && uploadEventId == None
      ensures sent.None? || !succeeded ==>
        stagedFiles == old(stagedFiles) && isUploadModalOpen == old(isUploadModalOpen) &&
        uploadEventId == old(uploadEventId)
      ensures newEvent == old(newEvent) && tagsInput == old(tagsInput) && isModalOpen == old(isModalOpen)
    {
      if !Filled(uploadEventId) || |stagedFiles| == 0 {
        return None;
      }
      sent := Some((uploadEventId.value, stagedFiles));
      if succeeded {
        stagedFiles := [];
        isUploadModalOpen := false;
        uploadEventId := None;
      }
    }

    /** The "Cancelar" button of the staging modal. */
    method Cancel()
      modifies this
      ensures stagedFiles == [] && !isUploadModalOpen && uploadEventId == None
      ensures newEvent == old(newEvent) && tagsInput == old(tagsInput) && isModalOpen == old(isModalOpen)
    {
      stagedFiles := [];
      isUploadModalOpen := false;
      uploadEventId := None;
    }
  }

  /** Picking files for an event and confirming a successful upload sends
      the earlier drafts followed by the new ones, and leaves staging empty. */
  method SelectThenUpload(page: AdminPage, id: string, files: seq<FileRef>, objectUrl: FileRef -> string)
    returns (sent: Option<(string, seq<PhotoUploadDraft>)>)
    requires id != ""
    modifies page
    ensures |files| + |old(page.stagedFiles)| > 0 ==>
      sent == Some((id, old(page.stagedFiles) + NewDrafts(files, objectUrl)))
    ensures page.stagedFiles == [] || (files == [] && old(page.stagedFiles) == [])
    ensures page.uploadEventId == None || (files == [] && old(page.stagedFiles) == [])
  {
    page.ChooseEvent(id);
    page.FileSelect(Some(files), objectUrl);
    sent := page.ConfirmUpload(true);
  }
}
