/**
 * The three record types of the booking directory: venues, artists and the
 * shows that join them. Only the columns are modelled; how they are stored
 * (an ORM over a relational database) is not.
 */
module Schema {

  datatype Option<T> = None | Some(value: T)

  datatype Result<T, E> = Success(value: T) | Failure(error: E)

  /**
   * The columns of the venue or artist at the other end of a show that the
   * application reads through `show.venue` / `show.artist`. A show stores this
   * snapshot rather than the whole record, because a record's own list of
   * shows would otherwise have to contain the record itself.
   */
  datatype Party = Party(id: int, name: string, imageLink: Option<string>)

  /**
   * One booking; its identity is (venue id, artist id, start time). Times are
   * whole instants on one integer scale (for example microseconds since an epoch).
   */
  datatype Show = Show(venue: Party, artist: Party, startTime: int)

  /** A venue row together with its `shows` relationship, as the ORM loads it. */
  datatype Venue = Venue(
    id: int,
    name: string,
    city: string,
    state: string,
    address: string,
    phone: string,
    imageLink: Option<string>,
    facebookLink: Option<string>,
    genres: seq<string>,
    website: Option<string>,
    seekingTalent: string,
    seekingDescription: Option<string>,
    shows: seq<Show>)

  /** An artist row together with its `shows` relationship. */
  datatype Artist = Artist(
    id: int,
    name: string,
    city: string,
    state: string,
    phone: string,
    genres: seq<string>,
    imageLink: Option<string>,
    facebookLink: Option<string>,
    website: Option<string>,
    seekingVenue: string,
    seekingDescription: Option<string>,
    shows: seq<Show>)
}
