/**
 The conversions between `Destination`, the value the screens show, and `DestinationEntity`,
 the row of the `destinations` table whose primary key is `title` (DestinationEntity.kt).
 Both carry the same five strings; each conversion copies them field by field.
 */
module Destinations {

  /** `Destination(title, subtitle, description, location, imageUrl)`. */
  datatype Destination = Destination(title: string, subtitle: string, description: string,
                                     location: string, imageUrl: string)

  /** `DestinationEntity`: the same fields, as one row of the table keyed by `title`. */
  datatype DestinationEntity = DestinationEntity(title: string, subtitle: string, description: string,
                                                 location: string, imageUrl: string)

  /** The primary key of the row. */
  function Key(e: DestinationEntity): string {
    e.title
  }

  /** `DestinationEntity.toDestination()`. */
  function ToDestination(e: DestinationEntity): (d: Destination)
    ensures d.title == Key(e)
    ensures d.subtitle == e.subtitle && d.description == e.description
    ensures d.location == e.location && d.imageUrl == e.imageUrl
  {
    Destination(e.title, e.subtitle, e.description, e.location, e.imageUrl)
  }

  /** `Destination.toEntity()`. */
  function ToEntity(d: Destination): (e: DestinationEntity)
    ensures Key(e) == d.title
    ensures e.subtitle == d.subtitle && e.description == d.description
    ensures e.location == d.location && e.imageUrl == d.imageUrl
  {
    DestinationEntity(d.title, d.subtitle, d.description, d.location, d.imageUrl)
  }

  /** Converting a destination to a row and back (`toEntity` then `toDestination`) gives the same destination. */
  lemma ToEntityRoundTrip(d: Destination)
    ensures ToDestination(ToEntity(d)) == d
  {
  }

  /** Converting a row to a destination and back (`toDestination` then `toEntity`) gives the same row. */
  lemma ToDestinationRoundTrip(e: DestinationEntity)
    ensures ToEntity(ToDestination(e)) == e
  {
  }

  /** Distinct destinations convert to distinct rows: `toEntity` loses no field. */
  lemma ToEntityInjective(d1: Destination, d2: Destination)
    ensures ToEntity(d1) == ToEntity(d2) <==> d1 == d2
  {
    ToEntityRoundTrip(d1);
    ToEntityRoundTrip(d2);
  }

  /** Distinct rows become distinct destinations. */
  lemma ToDestinationInjective(e1: DestinationEntity, e2: DestinationEntity)
    ensures ToDestination(e1) == ToDestination(e2) <==> e1 == e2
  {
    ToDestinationRoundTrip(e1);
    ToDestinationRoundTrip(e2);
  }

  /** Two destinations share a row key exactly when they share a title. */
  lemma KeyIsTitle(d1: Destination, d2: Destination)
    ensures Key(ToEntity(d1)) == Key(ToEntity(d2)) <==> d1.title == d2.title
  {
  }

  /** `map { it.toEntity() }` over a list of destinations. */
  function ToEntities(ds: seq<Destination>): (es: seq<DestinationEntity>)
    ensures |es| == |ds|
    ensures forall k | 0 <= k < |ds| :: es[k] == ToEntity(ds[k])
  {
    if |ds| == 0 then [] else [ToEntity(ds[0])] + ToEntities(ds[1..])
  }

  /** `map { it.toDestination() }` over a list of rows. */
  function ToDestinations(es: seq<DestinationEntity>): (ds: seq<Destination>)
    ensures |ds| == |es|
    ensures forall k | 0 <= k < |es| :: ds[k] == ToDestination(es[k])
  {
    if |es| == 0 then [] else [ToDestination(es[0])] + ToDestinations(es[1..])
  }

  /** Converting a list to rows and back gives the same list, element by element. */
  lemma ListRoundTrip(ds: seq<Destination>)
    ensures ToDestinations(ToEntities(ds)) == ds
  {
    var back := ToDestinations(ToEntities(ds));
    forall k | 0 <= k < |ds| ensures back[k] == ds[k] {
      ToEntityRoundTrip(ds[k]);
    }
  }

  /** Converting a list of rows to destinations and back gives the same rows, element by element. */
  lemma EntityListRoundTrip(es: seq<DestinationEntity>)
    ensures ToEntities(ToDestinations(es)) == es
  {
    var back := ToEntities(ToDestinations(es));
    forall k | 0 <= k < |es| ensures back[k] == es[k] {
      ToDestinationRoundTrip(es[k]);
    }
  }

  /** Distinct lists of destinations convert to distinct lists of rows. */
  lemma ToEntitiesInjective(ds1: seq<Destination>, ds2: seq<Destination>)
    ensures ToEntities(ds1) == ToEntities(ds2) <==> ds1 == ds2
  {
    ListRoundTrip(ds1);
    ListRoundTrip(ds2);
  }

  /** Distinct lists of rows convert to distinct lists of destinations. */
  lemma ToDestinationsInjective(es1: seq<DestinationEntity>, es2: seq<DestinationEntity>)
    ensures ToDestinations(es1) == ToDestinations(es2) <==> es1 == es2
  {
    EntityListRoundTrip(es1);
    EntityListRoundTrip(es2);
  }
}
