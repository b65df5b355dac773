/** The event page's lightbox: which photo is open, stepping through the
    photos with wrap-around, the keyboard shortcuts, the counter and the
    download file name. */
module EventView {
  import opened Wrappers
  import opened Text
  import opened Types

  // ------------------------------------------------------------ stepping

  /** The index `handleNext` moves to from `i` among `n` photos. */
  function NextIndex(i: nat, n: nat): (j: nat)
    ensures i < n ==> j < n && j == (i + 1) % n
  {
    if i < n - 1 then i + 1 else 0
  }

  /** The index `handlePrev` moves to from `i` among `n` photos. From the
      first photo of an empty list this is -1, a case the page never
      reaches. */
  function PrevIndex(i: nat, n: nat): (j: int)
    ensures i < n ==> 0 <= j < n && j == (i - 1 + n) % n
  {
    if i > 0 then i - 1 else n - 1
  }

  /** Next and previous undo each other. */
  lemma NextPrevInverse(i: nat, n: nat)
    requires i < n
    ensures PrevIndex(NextIndex(i, n), n) == i
    ensures NextIndex(PrevIndex(i, n), n) == i
  {
  }

  /** The index reached from `i` after `k` presses of "next". */
  function NextTimes(i: nat, n: nat, k: nat): (j: nat)
    decreases k
  {
    if k == 0 then i else NextIndex(NextTimes(i, n, k - 1), n)
  }

  /** Before the last photo, each press of "next" moves one photo on. */
  lemma {:induction false} NextTimesBeforeEnd(i: nat, n: nat, k: nat)
    requires i + k < n
    ensures NextTimes(i, n, k) == i + k
    decreases k
  {
    if k > 0 {
      NextTimesBeforeEnd(i, n, k - 1);
    }
  }

  /** Pressing "next" `a` times and then `b` times is pressing it `a + b`
      times. */
  lemma {:induction false} NextTimesAdd(i: nat, n: nat, a: nat, b: nat)
    ensures NextTimes(i, n, a + b) == NextTimes(NextTimes(i, n, a), n, b)
    decreases b
  {
    if b > 0 {
      NextTimesAdd(i, n, a, b - 1);
      assert a + b - 1 == a + (b - 1);
    }
  }

  /** Going round the whole event brings the lightbox back to the photo it
      started from. */
  lemma NextCycle(i: nat, n: nat)
    requires i < n
    ensures NextTimes(i, n, n) == i
  {
    NextTimesBeforeEnd(i, n, n - 1 - i);
    assert NextTimes(i, n, n - i) == 0;
    NextTimesBeforeEnd(0, n, i);
    NextTimesAdd(i, n, n - i, i);
  }

  // -------------------------------------------------------- rendered parts

  /** `pickleballbh-${event.id}-${photo.id}.jpg`. */
  function DownloadName(eventId: string, photoId: string): (name: string)
    ensures IsPrefix("pickleballbh-" + eventId + "-", name) && IsSuffix(".jpg", name)
  {
    "pickleballbh-" + eventId + "-" + photoId + ".jpg"
  }

  /** Within one event, different photos download under different names. */
  lemma DownloadNameInjective(eventId: string, a: string, b: string)
    requires DownloadName(eventId, a) == DownloadName(eventId, b)
    ensures a == b
  {
    var head := "pickleballbh-" + eventId + "-";
    var x := DownloadName(eventId, a);
    assert x == head + a + ".jpg";
    assert a == x[|head|..|x| - 4];
    assert DownloadName(eventId, b) == head + b + ".jpg";
    assert b == x[|head|..|x| - 4];
  }

  /** The counter "{position} / {photos}" shown over the open photo: split
      on spaces it reads as the 1-based position, "/" and the photo count. */
  function Counter(i: nat, n: nat): (counter: string)
    ensures Split(counter, ' ') == [NatToString(i + 1), "/", NatToString(n)]
  {
    var a := NatToString(i + 1);
    var b := NatToString(n);
    CounterPieces(a, b);
    a + " / " + b
  }

  lemma CounterPieces(a: string, b: string)
    requires IsDigits(a) && IsDigits(b)
    ensures Split(a + " / " + b, ' ') == [a, "/", b]
  {
    assert ' ' !in a && ' ' !in b by {
      assert forall c :: c in a ==> '0' <= c <= '9';
      assert forall c :: c in b ==> '0' <= c <= '9';
    }
    assert a + " / " + b == a + [' '] + ("/" + [' '] + b);
    SplitAtFirstSeparator(a, "/" + [' '] + b, ' ');
    SplitAtFirstSeparator("/", b, ' ');
    SplitWithoutSeparator(b, ' ');
  }

  /** What the open lightbox shows. */
  datatype LightboxView = LightboxView(photo: Photo, counter: string, downloadName: string)

  /** The keys the page listens to. */
  datatype Key = ArrowRight | ArrowLeft | Escape | OtherKey

  // ------------------------------------------------------------ the page

  /** The event page once its event has loaded: the event and the index of
      the photo open in the lightbox, if any. */
  class EventPage {
    const event: PickleballEvent
    var selectedIndex: Option<nat>

    /** The lightbox is closed or open on one of the event's photos. */
    ghost predicate Valid()
      reads this
    {
      selectedIndex.Some? ==> selectedIndex.value < |event.photos|
    }

    constructor(e: PickleballEvent)
      ensures Valid()
      ensures event == e && selectedIndex == None
    {
      event := e;
      selectedIndex := None;
    }

    /** Clicking the card of photo `index`. */
    method OpenPhoto(index: nat)
      requires index < |event.photos|
      modifies this
      ensures Valid()
      ensures selectedIndex == Some(index)
    {
      selectedIndex := Some(index);
    }

    /** `handleNext`: nothing while closed. */
    method Next()
      requires Valid()
      modifies this
      ensures Valid()
      ensures old(selectedIndex).None? ==> selectedIndex == None
      ensures old(selectedIndex).Some? ==>
        selectedIndex == Some(NextIndex(old(selectedIndex).value, |event.photos|))
    {
      if selectedIndex.Some? {
        selectedIndex := Some(NextIndex(selectedIndex.value, |event.photos|));
      }
    }

    /** `handlePrev`: nothing while closed. */
    method Prev()
      requires Valid()
      modifies this
      ensures Valid()
      ensures old(selectedIndex).None? ==> selectedIndex == None
      ensures old(selectedIndex).Some? ==>
        selectedIndex == Some(PrevIndex(old(selectedIndex).value, |event.photos|) as nat)
    {
      if selectedIndex.Some? {
        var j := PrevIndex(selectedIndex.value, |event.photos|);
        selectedIndex := Some(j as nat);
      }
    }

    /** The close button and a click on the backdrop. */
    method Close()
      modifies this
      ensures Valid()
      ensures selectedIndex == None
    {
      selectedIndex := None;
    }

    /** The keydown listener: ignored while closed; otherwise the arrows step
      and Escape closes. */
    method KeyDown(key: Key)
      requires Valid()
      modifies this
      ensures Valid()
      ensures old(selectedIndex).None? ==> selectedIndex == None
      ensures old(selectedIndex).Some? ==>
        (selectedIndex == match key
          case ArrowRight => Some(NextIndex(old(selectedIndex).value, |event.photos|))
          case ArrowLeft => Some(PrevIndex(old(selectedIndex).value, |event.photos|) as nat)
          case Escape => None
          case OtherKey => old(selectedIndex))
    {
      if selectedIndex.None? {
        return;
      }
      match key
      case ArrowRight => Next();
      case ArrowLeft => Prev();
      case Escape => selectedIndex := None;
      case OtherKey =>
    }

    /** The lightbox: rendered exactly when a photo is selected. */
    function Lightbox(): (v: Option<LightboxView>)
      requires Valid()
      reads this
      ensures v.Some? <==> selectedIndex.Some?
      ensures v.Some? ==> v.value.photo == event.photos[selectedIndex.value]
      ensures v.Some? ==> v.value.downloadName == DownloadName(event.id, v.value.photo.id)
      ensures v.Some? ==> v.value.counter == Counter(selectedIndex.value, |event.photos|)
    {
      match selectedIndex
      case None => None
      case Some(i) =>
        var photo := event.photos[i];
        Some(LightboxView(photo, Counter(i, |event.photos|), DownloadName(event.id, photo.id)))
    }
  }

  /** Stepping forward then back returns to the same photo. */
  method NextThenPrevRestores(page: EventPage)
    requires page.Valid()
    modifies page
    ensures page.Valid()
    ensures page.selectedIndex == old(page.selectedIndex)
  {
    page.Next();
    page.Prev();
    if old(page.selectedIndex).Some? {
      NextPrevInverse(old(page.selectedIndex).value, |page.event.photos|);
    }
  }
}
