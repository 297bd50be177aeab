/** The output feed: the fields of the feed-generation library's `Feed`,
    `Item` and `Link` records that the pipeline fills in. Timestamps and the
    author are left out. */
module Feeds {

  /** A hyperlink target. */
  datatype Link = Link(href: string)

  /** One output entry: its identifier is the upstream item's link. */
  datatype Item = Item(title: string, link: Link, description: string, id: string)

  /** The output feed's metadata and its entries, in order. */
  datatype Feed = Feed(title: string, link: Link, description: string, items: seq<Item>)
}
