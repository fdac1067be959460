/** The remote catalog client (getProducts) and the lookup the table renderer
    performs in the catalog (`Array.prototype.find` by id). */
module Catalog {
  import opened OrderTypes

  /** getProducts: the catalog is the response's product list when the request
      succeeded, and empty when the server answered `success: false` or the
      request threw. */
  function GetProducts(f: Fetched): (r: seq<Product>)
    requires f.Succeeded() ==> f.data.products.Some?
    ensures f.Succeeded() ==> r == f.data.products.value
    ensures !f.Succeeded() ==> r == []
  {
    match f
    case Threw => []
    case Answered(data) => if data.success then data.products.value else []
  }

  /** The index of the first catalog entry with the given id (`findIndex`). */
  function FindIndex(catalog: seq<Product>, id: int): (r: Option<nat>)
    ensures r.Some? ==> r.value < |catalog| && catalog[r.value].id == id
    ensures r.Some? ==> forall j :: 0 <= j < r.value ==> catalog[j].id != id
    ensures r.None? ==> forall j :: 0 <= j < |catalog| ==> catalog[j].id != id
  {
    if |catalog| == 0 then None
    else if catalog[0].id == id then Some(0)
    else
      match FindIndex(catalog[1..], id)
      case None => None
      case Some(k) => Some(k + 1)
  }

  /** `catalog.find(p => p.id === id)`: the first product with that id, if any. */
  function Find(catalog: seq<Product>, id: int): (r: Option<Product>)
    ensures r.Some? ==> r.value in catalog && r.value.id == id
    ensures r.None? <==> forall p :: p in catalog ==> p.id != id
  {
    match FindIndex(catalog, id)
    case None => None
    case Some(k) => Some(catalog[k])
  }

  /** When several entries share an id, the lookup picks the earliest of them. */
  lemma FindReturnsFirst(catalog: seq<Product>, id: int, i: nat)
    requires i < |catalog| && catalog[i].id == id
    requires forall j :: 0 <= j < i ==> catalog[j].id != id
    ensures Find(catalog, id) == Some(catalog[i])
  {
  }

}
