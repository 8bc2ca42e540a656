/**
 * The show classifier and the summary builders of the booking directory.
 *
 * `identify_shows` splits the shows of one venue or artist into past shows
 * (start time before now) and upcoming shows (start time after now), keeps
 * each list in its original order, and describes every show by the party at
 * its other end. The clock is read afresh for every comparison: first once per
 * show by the past filter, then once per show by the upcoming filter. Those
 * readings are parameters here: `pastReads[i]` is the time read when the past
 * filter looks at `shows[i]`, `upcomingReads[i]` the time read when the
 * upcoming filter does.
 */
module Classifier {
  import opened Schema
  import opened Seqs

  /** What a show page lists for one show: the other party and the start time. */
  datatype ShowSummary =
    | ArtistShow(artistId: int, artistName: string, artistImageLink: Option<string>, startTime: int)
    | VenueShow(venueId: int, venueName: string, venueImageLink: Option<string>, startTime: int)

  /** The four entries of the dictionary `identify_shows` returns. */
  datatype Classified = Classified(
    pastShows: seq<ShowSummary>,
    upcomingShows: seq<ShowSummary>,
    pastShowsCount: nat,
    upcomingShowsCount: nat)

  /** What list and search pages show for one venue or artist. */
  datatype EntitySummary = EntitySummary(id: int, name: string, numUpcomingShows: nat)

  // ---------------------------------------------------------------------------
  // Clock readings

  /** The readings of a clock that does not move while `n` comparisons are made. */
  function Steady(n: nat, now: int): (readings: seq<int>)
    ensures |readings| == n
  {
    seq(n, _ => now)
  }

  ghost predicate NonDecreasing(readings: seq<int>)
  {
    forall i, j :: 0 <= i < j < |readings| ==> readings[i] <= readings[j]
  }

  /**
   * The clock never runs backwards while `identify_shows` runs: every reading
   * of the past filter comes before every reading of the upcoming filter.
   */
  ghost predicate ClockReadsInOrder(pastReads: seq<int>, upcomingReads: seq<int>)
  {
    NonDecreasing(pastReads + upcomingReads)
  }

  // ---------------------------------------------------------------------------
  // The two filters

  /** Position i is kept by the past filter: the show started before its reading. */
  function PastMask(shows: seq<Show>, pastReads: seq<int>): (keep: seq<bool>)
    requires |pastReads| == |shows|
    ensures |keep| == |shows|
  {
    seq(|shows|, i requires 0 <= i < |shows| => shows[i].startTime < pastReads[i])
  }

  /** Position i is kept by the upcoming filter: the show starts after its reading. */
  function UpcomingMask(shows: seq<Show>, upcomingReads: seq<int>): (keep: seq<bool>)
    requires |upcomingReads| == |shows|
    ensures |keep| == |shows|
  {
    seq(|shows|, i requires 0 <= i < |shows| => shows[i].startTime > upcomingReads[i])
  }

  // ---------------------------------------------------------------------------
  // Show summaries

  /** `get_artist_show_summary`: the artist side of a show (used on venue pages). */
  function ArtistShowSummary(show: Show): (r: ShowSummary)
    ensures r.ArtistShow?
    ensures r.artistId == show.artist.id && r.artistName == show.artist.name
    ensures r.artistImageLink == show.artist.imageLink && r.startTime == show.startTime
  {
    ArtistShow(show.artist.id, show.artist.name, show.artist.imageLink, show.startTime)
  }

  /** `get_venue_show_summary`: the venue side of a show (used on artist pages). */
  function VenueShowSummary(show: Show): (r: ShowSummary)
    ensures r.VenueShow?
    ensures r.venueId == show.venue.id && r.venueName == show.venue.name
    ensures r.venueImageLink == show.venue.imageLink && r.startTime == show.startTime
  {
    VenueShow(show.venue.id, show.venue.name, show.venue.imageLink, show.startTime)
  }

  /** The summary of a show as seen from a venue (`isVenue`) or from an artist. */
  function SummaryOf(show: Show, isVenue: bool): (r: ShowSummary)
    ensures r.ArtistShow? == isVenue && r.startTime == show.startTime
    ensures isVenue ==>
      r.artistId == show.artist.id && r.artistName == show.artist.name && r.artistImageLink == show.artist.imageLink
    ensures !isVenue ==>
      r.venueId == show.venue.id && r.venueName == show.venue.name && r.venueImageLink == show.venue.imageLink
  {
    if isVenue then ArtistShowSummary(show) else VenueShowSummary(show)
  }

  /** `summaries` describes, one for one and in order, the shows at positions `idx`. */
  ghost predicate Describes(summaries: seq<ShowSummary>, shows: seq<Show>, isVenue: bool, idx: seq<nat>)
  {
    |summaries| == |idx| &&
    forall k :: 0 <= k < |idx| ==> idx[k] < |shows| && summaries[k] == SummaryOf(shows[idx[k]], isVenue)
  }

  // ---------------------------------------------------------------------------
  // identify_shows

  /**
   * Past shows are those at the positions the past filter keeps, upcoming
   * shows those the upcoming filter keeps; each is summarised by its other
   * party, and the counts are the lengths of the two lists.
   */
  function IdentifyShows(shows: seq<Show>, isVenue: bool, pastReads: seq<int>, upcomingReads: seq<int>): (r: Classified)
    requires |pastReads| == |shows| && |upcomingReads| == |shows|
    ensures r.pastShowsCount == |r.pastShows| && r.upcomingShowsCount == |r.upcomingShows|
    ensures Describes(r.pastShows, shows, isVenue, Kept(PastMask(shows, pastReads)))
    ensures Describes(r.upcomingShows, shows, isVenue, Kept(UpcomingMask(shows, upcomingReads)))
  {
    var past := Pick(shows, PastMask(shows, pastReads));
    var upcoming := Pick(shows, UpcomingMask(shows, upcomingReads));
    PickAt(shows, PastMask(shows, pastReads));
    PickAt(shows, UpcomingMask(shows, upcomingReads));
    if isVenue then
      Classified(
        seq(|past|, k requires 0 <= k < |past| => ArtistShowSummary(past[k])),
        seq(|upcoming|, k requires 0 <= k < |upcoming| => ArtistShowSummary(upcoming[k])),
        |past|, |upcoming|)
    else
      Classified(
        seq(|past|, k requires 0 <= k < |past| => VenueShowSummary(past[k])),
        seq(|upcoming|, k requires 0 <= k < |upcoming| => VenueShowSummary(upcoming[k])),
        |past|, |upcoming|)
  }

  /**
   * The past list holds, in their original order, exactly the shows whose
   * start time is before the clock reading taken for them.
   */
  lemma PastShowsExactly(shows: seq<Show>, isVenue: bool, pastReads: seq<int>, upcomingReads: seq<int>)
    requires |pastReads| == |shows| && |upcomingReads| == |shows|
    ensures var idx := Kept(PastMask(shows, pastReads));
      Increasing(idx) &&
      Describes(IdentifyShows(shows, isVenue, pastReads, upcomingReads).pastShows, shows, isVenue, idx) &&
      forall i :: 0 <= i < |shows| ==> (i in idx <==> shows[i].startTime < pastReads[i])
  {
    KeptExactly(PastMask(shows, pastReads));
  }

  /**
   * The upcoming list holds, in their original order, exactly the shows whose
   * start time is after the clock reading taken for them.
   */
  lemma UpcomingShowsExactly(shows: seq<Show>, isVenue: bool, pastReads: seq<int>, upcomingReads: seq<int>)
    requires |pastReads| == |shows| && |upcomingReads| == |shows|
    ensures var idx := Kept(UpcomingMask(shows, upcomingReads));
      Increasing(idx) &&
      Describes(IdentifyShows(shows, isVenue, pastReads, upcomingReads).upcomingShows, shows, isVenue, idx) &&
      forall i :: 0 <= i < |shows| ==> (i in idx <==> shows[i].startTime > upcomingReads[i])
  {
    KeptExactly(UpcomingMask(shows, upcomingReads));
  }

  /**
   * While the clock does not run backwards no show is both past and upcoming,
   * so the two counts add up to at most the number of shows.
   */
  lemma PastAndUpcomingDisjoint(shows: seq<Show>, isVenue: bool, pastReads: seq<int>, upcomingReads: seq<int>)
    requires |pastReads| == |shows| && |upcomingReads| == |shows|
    requires ClockReadsInOrder(pastReads, upcomingReads)
    ensures forall i :: 0 <= i < |shows| ==>
      !(i in Kept(PastMask(shows, pastReads)) && i in Kept(UpcomingMask(shows, upcomingReads)))
    ensures var r := IdentifyShows(shows, isVenue, pastReads, upcomingReads);
      r.pastShowsCount + r.upcomingShowsCount <= |shows|
  {
    var past, upcoming := PastMask(shows, pastReads), UpcomingMask(shows, upcomingReads);
    KeptExactly(past);
    KeptExactly(upcoming);
    var n := |shows|;
    forall i | 0 <= i < n ensures !(past[i] && upcoming[i]) {
      assert (pastReads + upcomingReads)[i] == pastReads[i];
      assert (pastReads + upcomingReads)[n + i] == upcomingReads[i];
    }
    KeptSplit(past, upcoming);
  }

  /**
   * A show that starts no earlier than its past-filter reading and no later
   * than its upcoming-filter reading is in neither list; with a steady clock
   * that is a show starting exactly now.
   */
  lemma ShowAtNowInNeither(shows: seq<Show>, pastReads: seq<int>, upcomingReads: seq<int>, i: nat)
    requires |pastReads| == |shows| && |upcomingReads| == |shows|
    requires i < |shows| && pastReads[i] <= shows[i].startTime <= upcomingReads[i]
    ensures i !in Kept(PastMask(shows, pastReads)) && i !in Kept(UpcomingMask(shows, upcomingReads))
  {
    KeptExactly(PastMask(shows, pastReads));
    KeptExactly(UpcomingMask(shows, upcomingReads));
  }

  /**
   * With a steady clock the counts add up to the number of shows exactly when
   * no show starts at the instant the clock shows.
   */
  lemma CountsCoverAllShows(shows: seq<Show>, isVenue: bool, now: int)
    ensures var r := IdentifyShows(shows, isVenue, Steady(|shows|, now), Steady(|shows|, now));
      r.pastShowsCount + r.upcomingShowsCount == |shows| <==>
      forall i :: 0 <= i < |shows| ==> shows[i].startTime != now
  {
    var readings := Steady(|shows|, now);
    var past, upcoming := PastMask(shows, readings), UpcomingMask(shows, readings);
    KeptSplit(past, upcoming);
    KeptNone(Neither(past, upcoming));
    forall i | 0 <= i < |shows|
      ensures Neither(past, upcoming)[i] == (shows[i].startTime == now)
    {
    }
  }

  /**
   * A clock that steps back between the two filters (the wall clock can be
   * set back) can put one show in both lists.
   */
  lemma ClockSteppingBackCountsShowTwice()
    ensures var show := Show(Party(1, "The Musical Hop", None), Party(4, "Guns N Petals", None), 5);
      var r := IdentifyShows([show], true, [6], [4]);
      r.pastShows == r.upcomingShows == [ArtistShowSummary(show)]
  {
    var show := Show(Party(1, "The Musical Hop", None), Party(4, "Guns N Petals", None), 5);
    assert PastMask([show], [6]) == [true];
    assert UpcomingMask([show], [4]) == [true];
  }

  /**
   * On a venue page every entry is an artist summary, on an artist page a
   * venue summary, and each carries the start time of the show it describes.
   */
  lemma SummariesFollowSide(shows: seq<Show>, isVenue: bool, pastReads: seq<int>, upcomingReads: seq<int>)
    requires |pastReads| == |shows| && |upcomingReads| == |shows|
    ensures var r := IdentifyShows(shows, isVenue, pastReads, upcomingReads);
      var pastIdx, upIdx := Kept(PastMask(shows, pastReads)), Kept(UpcomingMask(shows, upcomingReads));
      (forall k :: 0 <= k < |r.pastShows| ==>
        r.pastShows[k].ArtistShow? == isVenue && r.pastShows[k].startTime == shows[pastIdx[k]].startTime) &&
      (forall k :: 0 <= k < |r.upcomingShows| ==>
        r.upcomingShows[k].ArtistShow? == isVenue && r.upcomingShows[k].startTime == shows[upIdx[k]].startTime)
  {
  }

  // ---------------------------------------------------------------------------
  // Venue and artist summaries

  /** The positions of shows whose start time is after the reading taken for them. */
  ghost function UpcomingPositions(shows: seq<Show>, upcomingReads: seq<int>): set<int>
    requires |upcomingReads| == |shows|
  {
    set i | 0 <= i < |shows| && shows[i].startTime > upcomingReads[i]
  }

  lemma UpcomingCount(shows: seq<Show>, upcomingReads: seq<int>)
    requires |upcomingReads| == |shows|
    ensures |Kept(UpcomingMask(shows, upcomingReads))| == |UpcomingPositions(shows, upcomingReads)|
  {
    KeptCount(UpcomingMask(shows, upcomingReads));
    assert IndexSet(UpcomingMask(shows, upcomingReads)) == UpcomingPositions(shows, upcomingReads);
  }

  /** `get_venue_summary`: id and name copied, and the number of upcoming shows. */
  function GetVenueSummary(venue: Venue, pastReads: seq<int>, upcomingReads: seq<int>): (r: EntitySummary)
    requires |pastReads| == |venue.shows| && |upcomingReads| == |venue.shows|
    ensures r.id == venue.id && r.name == venue.name
    ensures r.numUpcomingShows == |UpcomingPositions(venue.shows, upcomingReads)|
  {
    UpcomingCount(venue.shows, upcomingReads);
    EntitySummary(venue.id, venue.name, |IdentifyShows(venue.shows, true, pastReads, upcomingReads).upcomingShows|)
  }

  /** `get_artist_summary`: id and name copied, and the number of upcoming shows. */
  function GetArtistSummary(artist: Artist, pastReads: seq<int>, upcomingReads: seq<int>): (r: EntitySummary)
    requires |pastReads| == |artist.shows| && |upcomingReads| == |artist.shows|
    ensures r.id == artist.id && r.name == artist.name
    ensures r.numUpcomingShows == |UpcomingPositions(artist.shows, upcomingReads)|
  {
    UpcomingCount(artist.shows, upcomingReads);
    EntitySummary(artist.id, artist.name, |IdentifyShows(artist.shows, false, pastReads, upcomingReads).upcomingShows|)
  }

  /** The shows of a list that start after `now`, by position. */
  ghost function StartingAfter(shows: seq<Show>, now: int): set<int>
  {
    set i | 0 <= i < |shows| && shows[i].startTime > now
  }

  /** A venue summary computed while the clock shows `now` throughout. */
  function VenueSummaryAt(venue: Venue, now: int): (r: EntitySummary)
    ensures r.id == venue.id && r.name == venue.name
    ensures r.numUpcomingShows == |StartingAfter(venue.shows, now)|
  {
    var n := |venue.shows|;
    assert UpcomingPositions(venue.shows, Steady(n, now)) == StartingAfter(venue.shows, now);
    GetVenueSummary(venue, Steady(n, now), Steady(n, now))
  }

  /** An artist summary computed while the clock shows `now` throughout. */
  function ArtistSummaryAt(artist: Artist, now: int): (r: EntitySummary)
    ensures r.id == artist.id && r.name == artist.name
    ensures r.numUpcomingShows == |StartingAfter(artist.shows, now)|
  {
    var n := |artist.shows|;
    assert UpcomingPositions(artist.shows, Steady(n, now)) == StartingAfter(artist.shows, now);
    GetArtistSummary(artist, Steady(n, now), Steady(n, now))
  }
}
