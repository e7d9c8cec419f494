/** The records the page receives from the TV catalogue. */
module Catalog {
  import opened Wrappers

  /** A show: its catalogue id and its name (other fields are only rendered). */
  datatype Show = Show(id: int, name: string)

  /**
   * An episode: the season and number its code is built from, its name, and
   * its summary, which the catalogue may leave out.
   */
  datatype Episode = Episode(season: int, number: int, name: string, summary: Option<string>)
}
