/** The swipe history page: the user's past swipes joined with the sample
    activities they were made on, the filter by action, the counts shown above
    the list, and the deletion of one entry or of the whole history.

    The store is outside the model: what it returns for the history query, and
    whether a delete succeeds, are parameters. */
module SwipeHistory {
  import opened Text
  import opened ActivitySwipe
  import opened Store

  /** The details shown for a swiped activity. */
  datatype ActivityDetails = ActivityDetails(
    title: string, description: string, category: string,
    date: string, time: string, location: string,
    participants: nat, maxParticipants: nat, points: nat, image: string)

  /** A stored swipe, as the history query returns it. */
  datatype HistoryRow = HistoryRow(id: string, action: SwipeAction, swipedAt: string, activityId: string)

  /** A stored swipe together with the activity it was made on. */
  datatype HistoryItem = HistoryItem(id: string, action: SwipeAction, swipedAt: string, activityId: string,
                                     activity: ActivityDetails)

  // ---------------------------------------------------------------- the activity table

  /** The six sample activities, by their numeric id. */
  const SampleActivities: map<int, ActivityDetails> := map[
    1 := ActivityDetails("Morning Tai Chi",
           "Gentle movement practice perfect for maintaining flexibility and balance",
           "Exercise", "2024-09-21", "9:00 AM - 10:00 AM", "Garden Pavilion", 12, 20, 15,
           "\U{1F9D8}\U{200D}\U{2640}\U{FE0F}"),
    2 := ActivityDetails("Creative Watercolor Painting",
           "Express yourself through beautiful watercolor techniques with guided instruction",
           "Arts & Crafts", "2024-09-22", "2:00 PM - 4:00 PM", "Art Studio", 8, 15, 20,
           "\U{1F3A8}"),
    3 := ActivityDetails("Book Club: Classic Literature",
           "Join us for engaging discussions about timeless novels and stories",
           "Social", "2024-09-23", "10:30 AM - 12:00 PM", "Library Lounge", 6, 12, 10,
           "\U{1F4DA}"),
    4 := ActivityDetails("Cooking Workshop: Asian Delights",
           "Learn to prepare delicious traditional Asian dishes",
           "Cooking", "2024-09-24", "11:00 AM - 1:00 PM", "Community Kitchen", 4, 8, 25,
           "\U{1F468}\U{200D}\U{1F373}"),
    5 := ActivityDetails("Nature Photography Walk",
           "Explore the beautiful gardens while learning photography tips",
           "Outdoor", "2024-09-25", "8:00 AM - 10:00 AM", "Botanical Gardens", 7, 10, 15,
           "\U{1F4F8}"),
    6 := ActivityDetails("Music Therapy Session",
           "Relaxing musical activities to enhance wellbeing and memory",
           "Wellness", "2024-09-26", "3:00 PM - 4:30 PM", "Music Room", 10, 15, 18,
           "\U{1F3B5}")
  ]

  /** What is shown for an activity that is not one of the samples. */
  const UnknownActivity: ActivityDetails :=
    ActivityDetails("Unknown Activity", "Activity details not available", "Unknown",
                    "TBD", "TBD", "TBD", 0, 0, 0, "\U{2753}")

  /** The stored identifiers of the sample activities, mapped back to their ids. */
  const UuidIds: map<string, int> := map[
    "00000000-0000-0000-0000-000000000001" := 1,
    "00000000-0000-0000-0000-000000000002" := 2,
    "00000000-0000-0000-0000-000000000003" := 3,
    "00000000-0000-0000-0000-000000000004" := 4,
    "00000000-0000-0000-0000-000000000005" := 5,
    "00000000-0000-0000-0000-000000000006" := 6
  ]

  /** The numeric id of a stored activity identifier; 0 for any other text. */
  function UuidToId(uuid: string): int
  {
    if uuid in UuidIds then UuidIds[uuid] else 0
  }

  /** The details shown for a stored activity identifier. */
  function ActivityFor(uuid: string): ActivityDetails
  {
    var n := UuidToId(uuid);
    if n in SampleActivities then SampleActivities[n] else UnknownActivity
  }

  /** Reading an identifier back inverts the swipe stack's table: each sample
      id comes back from its identifier, and a text that reads as a sample id
      is that id's identifier. Every other text reads as 0. */
  lemma UuidRoundTrip(id: int, uuid: string)
    ensures ActivityUuid(id).Some? ==> UuidToId(ActivityUuid(id).value) == id
    ensures UuidToId(uuid) != 0 ==> 1 <= UuidToId(uuid) <= 6 && ActivityUuid(UuidToId(uuid)) == Some(uuid)
    ensures UuidToId(uuid) == 0 <==> (forall k :: 1 <= k <= 6 ==> ActivityUuid(k) != Some(uuid))
  {
    assert DigitChar(1) == '1';
    assert UuidPrefix + ['1'] == "00000000-0000-0000-0000-000000000001";
    assert ActivityUuid(1) == Some("00000000-0000-0000-0000-000000000001");
    assert DigitChar(2) == '2';
    assert UuidPrefix + ['2'] == "00000000-0000-0000-0000-000000000002";
    assert ActivityUuid(2) == Some("00000000-0000-0000-0000-000000000002");
    assert DigitChar(3) == '3';
    assert UuidPrefix + ['3'] == "00000000-0000-0000-0000-000000000003";
    assert ActivityUuid(3) == Some("00000000-0000-0000-0000-000000000003");
    assert DigitChar(4) == '4';
    assert UuidPrefix + ['4'] == "00000000-0000-0000-0000-000000000004";
    assert ActivityUuid(4) == Some("00000000-0000-0000-0000-000000000004");
    assert DigitChar(5) == '5';
    assert UuidPrefix + ['5'] == "00000000-0000-0000-0000-000000000005";
    assert ActivityUuid(5) == Some("00000000-0000-0000-0000-000000000005");
    assert DigitChar(6) == '6';
    assert UuidPrefix + ['6'] == "00000000-0000-0000-0000-000000000006";
    assert ActivityUuid(6) == Some("00000000-0000-0000-0000-000000000006");
  }

  /** A swipe made on a sample activity shows that activity's details; any
      other identifier shows the placeholder, with no participants and no
      points. */
  lemma ActivityForMeaning(id: int, uuid: string)
    ensures 1 <= id <= 6 ==> ActivityFor(ActivityUuid(id).value) == SampleActivities[id]
    ensures UuidToId(uuid) == 0 ==>
      ActivityFor(uuid) == UnknownActivity
      && ActivityFor(uuid).participants == 0 && ActivityFor(uuid).points == 0
  {
    UuidRoundTrip(id, uuid);
  }

  /** The row with its activity's details attached. */
  function WithActivity(row: HistoryRow): HistoryItem
  {
    HistoryItem(row.id, row.action, row.swipedAt, row.activityId, ActivityFor(row.activityId))
  }

  /** The rows the store returned, each with its activity attached; a missing
      answer counts as no rows. */
  function AttachActivities(data: Option<seq<HistoryRow>>): (items: seq<HistoryItem>)
    ensures data.None? ==> items == []
    ensures data.Some? ==> |items| == |data.value|
    ensures data.Some? ==> forall i :: 0 <= i < |items| ==>
      var row := data.value[i];
      items[i].id == row.id && items[i].action == row.action && items[i].swipedAt == row.swipedAt
      && items[i].activityId == row.activityId && items[i].activity == ActivityFor(row.activityId)
  {
    match data
    case None => []
    case Some(rows) => seq(|rows|, i requires 0 <= i < |rows| => WithActivity(rows[i]))
  }

  // ---------------------------------------------------------------- filter and counts

  /** The filter choice above the list. */
  datatype HistoryFilter = All | Only(action: SwipeAction)

  function Shows(f: HistoryFilter): HistoryItem -> bool
  {
    (item: HistoryItem) => f.All? || item.action == f.action
  }

  /** The entries the list shows under a filter. */
  function FilteredHistory(history: seq<HistoryItem>, f: HistoryFilter): seq<HistoryItem>
  {
    Filter(history, Shows(f))
  }

  /** "All" shows the history as it is; a single action shows exactly the
      entries with that action, in their original order. */
  lemma FilteredHistoryMeaning(history: seq<HistoryItem>, f: HistoryFilter)
    ensures f.All? ==> FilteredHistory(history, f) == history
    ensures f.Only? ==> forall x :: x in FilteredHistory(history, f) <==> x in history && x.action == f.action
    ensures IsSubsequence(FilteredHistory(history, f), history)
  {
    if f.All? {
      FilterKeepAll(history, Shows(f));
    }
    FilterIsSubsequence(history, Shows(f));
  }

  /** The counts above the list. */
  datatype Stats = Stats(total: nat, liked: nat, passed: nat)

  function HistoryStats(history: seq<HistoryItem>): Stats
  {
    Stats(|history|, |FilteredHistory(history, Only(Yes))|, |FilteredHistory(history, Only(No))|)
  }

  /** Every entry is either liked or passed, so the two counts add up to the
      total, and each count is the length of the list its filter shows. */
  lemma {:induction false} StatsAddUp(history: seq<HistoryItem>)
    ensures HistoryStats(history).liked + HistoryStats(history).passed == HistoryStats(history).total
  {
    if history != [] {
      StatsAddUp(history[1..]);
    }
  }

  // ---------------------------------------------------------------- deletion

  /** The history without the entries of one stored swipe. */
  function Without(history: seq<HistoryItem>, swipeId: string): seq<HistoryItem>
  {
    Filter(history, (item: HistoryItem) => item.id != swipeId)
  }

  /** Deleting a swipe removes every entry with its id and keeps every other
      entry, in order. */
  lemma WithoutMeaning(history: seq<HistoryItem>, swipeId: string)
    ensures forall x :: x in Without(history, swipeId) <==> x in history && x.id != swipeId
    ensures IsSubsequence(Without(history, swipeId), history)
    ensures (forall x :: x in history ==> x.id != swipeId) ==> Without(history, swipeId) == history
  {
    var keep := (item: HistoryItem) => item.id != swipeId;
    FilterIsSubsequence(history, keep);
    if forall x :: x in history ==> x.id != swipeId {
      FilterKeepAll(history, keep);
    }
  }

  /** What the history query gives: its rows (possibly none at all), or an error. */
  datatype FetchResult = Fetched(data: Option<seq<HistoryRow>>) | FetchFailed(message: string)

  /** The history page's state. */
  class HistoryView {
    const userId: string
    var history: seq<HistoryItem>
    var loading: bool
    var filter: HistoryFilter

    constructor(userId: string)
      ensures this.userId == userId
      ensures history == [] && loading && filter == All
    {
      this.userId := userId;
      history, loading, filter := [], true, All;
    }

    /** What the list shows. */
    function Shown(): seq<HistoryItem>
      reads this
    {
      FilteredHistory(history, filter)
    }

    /** The counts shown above the list. */
    function Counts(): Stats
      reads this
    {
      HistoryStats(history)
    }

    /** `fetchSwipeHistory`: replaces the list on an answer and keeps it on an
        error (a thrown exception counts as an error); either way the page
        stops loading. */
    method FetchHistory(answer: FetchResult)
      modifies this
      ensures !loading && filter == old(filter)
      ensures answer.Fetched? ==> history == AttachActivities(answer.data)
      ensures answer.FetchFailed? ==> history == old(history)
    {
      if answer.Fetched? {
        history := AttachActivities(answer.data);
      }
      loading := false;
    }

    /** `deleteSwipeHistory`: on success the entries of that swipe leave the
        list; on an error the list stays as it was. */
    method DeleteSwipe(swipeId: string, store: StoreResult)
      modifies this
      ensures loading == old(loading) && filter == old(filter)
      ensures store.Stored? ==> history == Without(old(history), swipeId)
      ensures store.StoreFailed? ==> history == old(history)
    {
      if store.StoreFailed? {
        return;
      }
      history := Without(history, swipeId);
    }

    /** `clearAllHistory`: without the user's confirmation nothing is asked of
        the store; otherwise every swipe of this user is deleted, and the list
        empties when the store succeeds. `asked` is the swiper whose swipes the
        store was asked to delete. */
    method ClearAll(confirmed: bool, store: StoreResult) returns (asked: Option<string>)
      modifies this
      ensures loading == old(loading) && filter == old(filter)
      ensures !confirmed ==> asked.None? && history == old(history)
      ensures confirmed ==> asked == Some(userId)
      ensures confirmed && store.Stored? ==> history == []
      ensures store.StoreFailed? ==> history == old(history)
    {
      if !confirmed {
        return None;
      }
      asked := Some(userId);
      if store.StoreFailed? {
        return;
      }
      history := [];
    }

    /** Choosing a filter changes only what is shown. */
    method SetFilter(f: HistoryFilter)
      modifies this
      ensures filter == f && history == old(history) && loading == old(loading)
    {
      filter := f;
    }
  }
}
