/**
 * The list pages of the booking directory: venues grouped by city and state,
 * all artists, and all shows.
 *
 * The tables are sequences in the order the database returns their rows.
 * Every query of one page sees the same snapshot of the tables, and each page
 * is computed while the clock shows one instant `now`.
 */
module Listing {
  import opened Schema
  import opened Seqs
  import opened Classifier

  datatype CityState = CityState(city: string, state: string)

  /** One group of the venues page. */
  datatype AreaListing = AreaListing(city: string, state: string, venues: seq<EntitySummary>)

  /** One row of the shows page. */
  datatype ShowListing = ShowListing(
    venueId: int,
    venueName: string,
    artistId: int,
    artistName: string,
    artistImageLink: Option<string>,
    startTime: int)

  function PlaceOf(v: Venue): CityState
  {
    CityState(v.city, v.state)
  }

  // ---------------------------------------------------------------------------
  // Grouping venues by city and state

  /**
   * `SELECT DISTINCT ON (city, state)`: every (city, state) pair that some
   * venue has, once each, in the order of first appearance.
   */
  function DistinctCityStates(venues: seq<Venue>): (places: seq<CityState>)
    ensures forall a, b :: 0 <= a < b < |places| ==> places[a] != places[b]
    ensures forall p :: p in places <==> exists i :: 0 <= i < |venues| && PlaceOf(venues[i]) == p
  {
    if venues == [] then []
    else
      var n := |venues| - 1;
      var before := DistinctCityStates(venues[..n]);
      assert forall i :: 0 <= i < n ==> venues[..n][i] == venues[i];
      if PlaceOf(venues[n]) in before then before else before + [PlaceOf(venues[n])]
  }

  /** Position i holds a venue in the given city and state. */
  function PlaceMask(venues: seq<Venue>, p: CityState): (keep: seq<bool>)
    ensures |keep| == |venues|
  {
    seq(|venues|, i requires 0 <= i < |venues| => PlaceOf(venues[i]) == p)
  }

  /** `Venue.query.filter_by(city=..., state=...).all()`, in table order. */
  function VenuesIn(venues: seq<Venue>, p: CityState): (group: seq<Venue>)
    ensures forall v :: v in group ==> v in venues && PlaceOf(v) == p
    ensures forall i :: 0 <= i < |venues| && PlaceOf(venues[i]) == p ==> venues[i] in group
    ensures var idx := Kept(PlaceMask(venues, p));
      Increasing(idx) && |group| == |idx| &&
      (forall i :: 0 <= i < |venues| ==> (i in idx <==> PlaceOf(venues[i]) == p)) &&
      forall k :: 0 <= k < |idx| ==> group[k] == venues[idx[k]]
  {
    var keep := PlaceMask(venues, p);
    forall v | v in Pick(venues, keep) ensures v in venues && PlaceOf(v) == p {
      PickMember(venues, keep, v);
    }
    forall i | 0 <= i < |venues| && PlaceOf(venues[i]) == p ensures venues[i] in Pick(venues, keep) {
      PickMember(venues, keep, venues[i]);
    }
    PickAt(venues, keep);
    KeptExactly(keep);
    Pick(venues, keep)
  }

  /** `[get_venue_summary(venue) for venue in venues]`. */
  function VenueSummaries(venues: seq<Venue>, now: int): (r: seq<EntitySummary>)
    ensures |r| == |venues|
    ensures forall i :: 0 <= i < |venues| ==> r[i] == VenueSummaryAt(venues[i], now)
  {
    seq(|venues|, i requires 0 <= i < |venues| => VenueSummaryAt(venues[i], now))
  }

  /**
   * The venues page: one group per distinct (city, state) pair, in the order
   * of the pairs, each listing the summaries of the venues with that pair.
   */
  method ListVenues(venues: seq<Venue>, now: int) returns (areas: seq<AreaListing>)
    ensures |areas| == |DistinctCityStates(venues)|
    ensures forall k :: 0 <= k < |areas| ==>
      var p := DistinctCityStates(venues)[k];
      areas[k].city == p.city && areas[k].state == p.state &&
      areas[k].venues == VenueSummaries(VenuesIn(venues, p), now)
  {
    var places := DistinctCityStates(venues);
    areas := [];
    for k := 0 to |places|
      invariant |areas| == k
      invariant forall j :: 0 <= j < k ==>
        areas[j].city == places[j].city && areas[j].state == places[j].state &&
        areas[j].venues == VenueSummaries(VenuesIn(venues, places[j]), now)
    {
      var place := places[k];
      var inPlace := VenuesIn(venues, place);
      areas := areas + [AreaListing(place.city, place.state, VenueSummaries(inPlace, now))];
    }
  }

  /** Every venue of a group has that group's city and state. */
  lemma GroupMembersShareCityState(venues: seq<Venue>, k: nat)
    requires k < |DistinctCityStates(venues)|
    ensures var p := DistinctCityStates(venues)[k];
      forall v :: v in VenuesIn(venues, p) ==> v.city == p.city && v.state == p.state
  {
  }

  /** Every venue has a group, the one for its own city and state, and appears in it. */
  lemma EveryVenueInOwnGroup(venues: seq<Venue>, i: nat)
    requires i < |venues|
    ensures PlaceOf(venues[i]) in DistinctCityStates(venues)
    ensures venues[i] in VenuesIn(venues, PlaceOf(venues[i]))
  {
    var keep := PlaceMask(venues, PlaceOf(venues[i]));
    PickMember(venues, keep, venues[i]);
  }

  /** No venue appears in two different groups. */
  lemma NoVenueInTwoGroups(venues: seq<Venue>, a: nat, b: nat, v: Venue)
    requires a < |DistinctCityStates(venues)| && b < |DistinctCityStates(venues)|
    requires v in VenuesIn(venues, DistinctCityStates(venues)[a])
    requires v in VenuesIn(venues, DistinctCityStates(venues)[b])
    ensures a == b
  {
  }

  /** The total size of the groups for the given pairs. */
  function GroupSizes(venues: seq<Venue>, places: seq<CityState>): nat
  {
    if places == [] then 0
    else GroupSizes(venues, places[..|places| - 1]) + |VenuesIn(venues, places[|places| - 1])|
  }

  /** 1 if the pair is one of `places`, which are distinct, else 0. */
  lemma {:induction false} GroupSizesOfOne(v: Venue, places: seq<CityState>)
    requires forall a, b :: 0 <= a < b < |places| ==> places[a] != places[b]
    ensures GroupSizes([v], places) == if PlaceOf(v) in places then 1 else 0
  {
    if places != [] {
      var n := |places| - 1;
      GroupSizesOfOne(v, places[..n]);
      assert PlaceMask([v], places[n]) == [PlaceOf(v) == places[n]];
      assert Pick([v], [PlaceOf(v) == places[n]]) == if PlaceOf(v) == places[n] then [v] else [];
      assert PlaceOf(v) in places <==> PlaceOf(v) in places[..n] || PlaceOf(v) == places[n];
    }
  }

  /** Appending a venue grows each group by one if the venue belongs to it. */
  lemma GroupGrows(venues: seq<Venue>, v: Venue, p: CityState)
    ensures |VenuesIn(venues + [v], p)| == |VenuesIn(venues, p)| + if PlaceOf(v) == p then 1 else 0
  {
    var all := venues + [v];
    assert all[..|venues|] == venues;
    assert PlaceMask(all, p)[..|venues|] == PlaceMask(venues, p);
  }

  /** Appending a venue adds to the total what the venue alone contributes. */
  lemma {:induction false} GroupSizesGrow(venues: seq<Venue>, v: Venue, places: seq<CityState>)
    ensures GroupSizes(venues + [v], places) == GroupSizes(venues, places) + GroupSizes([v], places)
  {
    if places != [] {
      var n := |places| - 1;
      var init, p := places[..n], places[n];
      GroupSizesGrow(venues, v, init);
      GroupGrows(venues, v, p);
      GroupGrows([], v, p);
      assert [] + [v] == [v];
      assert GroupSizes(venues + [v], places) == GroupSizes(venues + [v], init) + |VenuesIn(venues + [v], p)|;
      assert GroupSizes(venues, places) == GroupSizes(venues, init) + |VenuesIn(venues, p)|;
      assert GroupSizes([v], places) == GroupSizes([v], init) + |VenuesIn([v], p)|;
    }
  }

  /** The total size of the groups over pairs split in two is the sum of the two totals. */
  lemma {:induction false} GroupSizesAppend(venues: seq<Venue>, places: seq<CityState>, p: CityState)
    ensures GroupSizes(venues, places + [p]) == GroupSizes(venues, places) + |VenuesIn(venues, p)|
  {
    assert (places + [p])[..|places|] == places;
  }

  /** A pair no venue has has an empty group. */
  lemma EmptyGroup(venues: seq<Venue>, p: CityState)
    requires forall i :: 0 <= i < |venues| ==> PlaceOf(venues[i]) != p
    ensures VenuesIn(venues, p) == []
  {
    PickAt(venues, PlaceMask(venues, p));
    KeptNone(PlaceMask(venues, p));
  }

  /** The groups together hold every venue exactly once: their sizes add up to the number of venues. */
  lemma {:induction false} GroupsCoverAllVenues(venues: seq<Venue>)
    ensures GroupSizes(venues, DistinctCityStates(venues)) == |venues|
  {
    if venues != [] {
      var n := |venues| - 1;
      var rest, v := venues[..n], venues[n];
      assert venues == rest + [v];
      GroupsCoverAllVenues(rest);
      var before := DistinctCityStates(rest);
      GroupSizesGrow(rest, v, before);
      GroupSizesOfOne(v, before);
      if PlaceOf(v) !in before {
        var p := PlaceOf(v);
        assert DistinctCityStates(venues) == before + [p];
        GroupSizesAppend(venues, before, p);
        EmptyGroup(rest, p);
        GroupGrows(rest, v, p);
      }
    }
  }

  // ---------------------------------------------------------------------------
  // Artists and shows pages

  /** The artists page: `[get_artist_summary(artist) for artist in Artist.query.all()]`. */
  function ListArtists(artists: seq<Artist>, now: int): (r: seq<EntitySummary>)
    ensures |r| == |artists|
    ensures forall i :: 0 <= i < |artists| ==>
      r[i].id == artists[i].id && r[i].name == artists[i].name &&
      r[i].numUpcomingShows == |StartingAfter(artists[i].shows, now)|
  {
    seq(|artists|, i requires 0 <= i < |artists| => ArtistSummaryAt(artists[i], now))
  }

  /**
   * The shows page: one row per show of the table, in order, naming its venue
   * and artist and carrying its start time.
   */
  method ListShows(shows: seq<Show>) returns (data: seq<ShowListing>)
    ensures |data| == |shows|
    ensures forall i :: 0 <= i < |shows| ==>
      data[i].venueId == shows[i].venue.id && data[i].venueName == shows[i].venue.name &&
      data[i].artistId == shows[i].artist.id && data[i].artistName == shows[i].artist.name &&
      data[i].artistImageLink == shows[i].artist.imageLink && data[i].startTime == shows[i].startTime
  {
    data := [];
    for i := 0 to |shows|
      invariant |data| == i
      invariant forall j :: 0 <= j < i ==>
        data[j].venueId == shows[j].venue.id && data[j].venueName == shows[j].venue.name &&
        data[j].artistId == shows[j].artist.id && data[j].artistName == shows[j].artist.name &&
        data[j].artistImageLink == shows[j].artist.imageLink && data[j].startTime == shows[j].startTime
    {
      var show := shows[i];
      data := data + [ShowListing(show.venue.id, show.venue.name, show.artist.id, show.artist.name,
                                  show.artist.imageLink, show.startTime)];
    }
  }
}
