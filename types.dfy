/** Values shared by the places cache, the place matcher, the tourism-search
    loop and the record formatters. */
module Model {

  datatype Option<+T> = None | Some(value: T)

  /** Failures that the source raises as Python exceptions and that
      propagate uncaught to the caller of the search. */
  datatype Error =
    | AddressWithoutSpace   // `formatted_address.split(' ', 1)[1]` on an address with no space
    | StreetWithoutSpace    // `streetName.split(' ', 1)[1]` on a bare numeric street name

  datatype Result<+T> = Ok(value: T) | Err(error: Error)

  /** A latitude/longitude pair. It also stands for the request fingerprint:
      the source hashes the pair, and the model keys the seen-set by the
      pair itself, which is the injective key the hash is used as. */
  datatype Coord = Coord(lat: real, lng: real)

  const Origin := Coord(0.0, 0.0)

  /** A result of the places provider, as stored in the cache. */
  datatype Place = Place(
    reference: string,
    name: string,
    formattedAddress: string,
    location: Coord,
    rating: real,
    userRatingsTotal: int,
    businessStatus: string,
    cachedAt: string)

  /** The provider's answer to one text search: the first page and the pages
      reached by following `next_page_token`, in order. */
  datatype PlacesResponse = PlacesResponse(first: seq<Place>, following: seq<seq<Place>>)
  {
    function Pages(): (pages: seq<seq<Place>>)
      ensures |pages| == |following| + 1 && pages[0] == first
    {
      [first] + following
    }
  }

  datatype Address = Address(block: string, streetName: string, postalCode: string)

  /** A number as it arrives in the tourism record: its value and the text
      Python prints for it. */
  datatype Number = Number(value: real, text: string)

  /** A record of the tourism search API. */
  datatype Item = Item(
    name: string,
    description: string,
    body: string,
    address: Address,
    location: Coord,
    rating: Number,
    officialWebsite: Option<string>)

  // Sequence facts the proofs use one at a time, to keep them out of the
  // solver's search.

  lemma AppendAssoc<T>(a: seq<T>, b: seq<T>, c: seq<T>)
    ensures (a + b) + c == a + (b + c)
  {
  }

  lemma TailAppend<T>(a: seq<T>, b: seq<T>)
    requires a != []
    ensures (a + b)[0] == a[0] && (a + b)[1..] == a[1..] + b
  {
  }

  lemma SnocExt<T>(u: seq<T>, s: seq<T>, x: T)
    requires |u| == |s| + 1 && u[|s|] == x
    requires forall i :: 0 <= i < |s| ==> u[i] == s[i]
    ensures u == s + [x]
  {
    assert forall i :: 0 <= i < |u| ==> u[i] == (s + [x])[i];
  }

  lemma TakeSnoc<T>(s: seq<T>, i: nat)
    requires i < |s|
    ensures s[..i + 1] == s[..i] + [s[i]]
  {
  }

  lemma TakeAll<T>(s: seq<T>)
    ensures s[..|s|] == s
  {
  }
}
