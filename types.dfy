/**
 * The record shapes the catalog stores: a repair job (Car), the parts it
 * needs (Part), the suppliers' quotes for a part (Offer) and the supplier
 * directory derived from those quotes (Contact).
 *
 * An optional property of a record becomes an `Option` field. JavaScript
 * numbers that are read as coordinates are `real`; millisecond timestamps
 * are `int`. Photos are opaque data-URL strings.
 */
module Types {

  datatype Option<+T> = None | Some(value: T)

  /** The two states a part can be in; no operation of the store moves between them. */
  datatype PartStatus = Active | Found

  /** A repair job. `year` is free text, not a number. */
  datatype Car = Car(
    id: string,
    make: string,
    model: string,
    year: string,
    vin: Option<string>,
    media: Option<seq<string>>,
    createdAt: int)

  /** A part needed for the car whose identifier is `carId`. */
  datatype Part = Part(
    id: string,
    carId: string,
    name: string,
    status: PartStatus,
    referenceMedia: seq<string>)

  /** A supplier's quote for the part whose identifier is `partId`; the price is text. */
  datatype Offer = Offer(
    id: string,
    partId: string,
    media: seq<string>,
    costPrice: string,
    shopName: string,
    phone: string,
    locationText: Option<string>,
    lat: Option<real>,
    lng: Option<real>,
    createdAt: int)

  /**
   * A supplier directory entry. `makes`, `models` and `years` are plain
   * lists: nothing in the type keeps them free of repeats.
   */
  datatype Contact = Contact(
    id: string,
    name: string,
    phone: string,
    lastLocationText: Option<string>,
    lastLat: Option<real>,
    lastLng: Option<real>,
    lastUsedAt: int,
    makes: seq<string>,
    models: seq<string>,
    years: seq<string>,
    media: Option<seq<string>>)
}
