/** The upstream RSS 2.0 document, as the XML decoder fills it in. */
module Rss {

  /** One upstream entry. Its link doubles as its identity. */
  datatype Item = Item(title: string, description: string, link: string)

  /** The channel metadata and its entries, in document order. */
  datatype Channel = Channel(
    title: string,
    link: string,
    description: string,
    lastBuildDate: string,
    docs: string,
    language: string,
    items: seq<Item>)

  /** The `<rss>` root element with its `version` attribute. */
  datatype RSS = RSS(version: string, channel: Channel)
}
