/** The client-side conversion of a product as the products API returns it into
    the catalogue item the inventory page displays. */
module InventoryService {
  import opened Basics
  import opened Catalog

  /** The fields of an API product the conversion reads. Optional columns are
      None when the API sends null. */
  datatype ApiProduct = ApiProduct(
    id: int,
    name: string,
    description: string,
    category: string,
    unitPrice: real,
    unitSize: Option<string>,
    totalUnits: Option<int>,
    soldUnits: Option<int>)

  /** The eleven known categories, each mapped to itself. The lookup is exact:
      "Fruits" is not a key. */
  const CategoryMap: map<string, string> := map[
    "fruits" := "fruits", "vegetables" := "vegetables", "grains" := "grains",
    "legumes" := "legumes", "nuts" := "nuts", "oils" := "oils", "spices" := "spices",
    "sweeteners" := "sweeteners", "beverages" := "beverages", "dairy" := "dairy",
    "pantry" := "pantry"]

  /** One emoji per known category. */
  const ImageMap: map<string, string> := map[
    "fruits" := "\U{1F34C}", "vegetables" := "\U{1F955}", "grains" := "\U{1F33E}",
    "legumes" := "\U{1FAD8}", "nuts" := "\U{1F95C}", "oils" := "\U{1FAD2}",
    "spices" := "\U{1F336}\U{FE0F}", "sweeteners" := "\U{1F36F}", "beverages" := "\U{2615}",
    "dairy" := "\U{1F95B}", "pantry" := "\U{1F3FA}"]

  const FallbackCategory := "pantry"
  const FallbackImage := "\U{1F3FA}"
  const DefaultUnit := "unit"

  /** `n || 0` for a numeric column. */
  function OrZero(n: Option<int>): (r: int)
    ensures n.Some? ==> r == n.value
    ensures n.None? ==> r == 0
  {
    if n.Some? && n.value != 0 then n.value else 0
  }

  /** `min(95, max(50, 100 - 2 * soldUnits))`: 95 for the least sold products,
      falling by 2 per unit sold, never below 50. */
  function Popularity(soldUnits: int): (p: int)
    ensures 50 <= p <= 95
    ensures soldUnits <= 2 ==> p == 95
    ensures soldUnits >= 25 ==> p == 50
    ensures 2 < soldUnits < 25 ==> p == 100 - 2 * soldUnits
  {
    MinInt(95, MaxInt(50, 100 - soldUnits * 2))
  }

  /** Selling more never raises the popularity score. */
  lemma PopularityNonIncreasing(sold: int, moreSold: int)
    requires sold <= moreSold
    ensures Popularity(moreSold) <= Popularity(sold)
  {
  }

  /** `categoryMap[category] || 'pantry'`: a known category is kept, anything
      else becomes pantry. */
  function CategoryOf(category: string): (c: string)
    ensures c in CategoryMap
    ensures category in CategoryMap ==> c == category
    ensures category !in CategoryMap ==> c == FallbackCategory
  {
    if category in CategoryMap && CategoryMap[category] != "" then CategoryMap[category] else FallbackCategory
  }

  /** `imageMap[category] || '🏺'`. */
  function ImageOf(category: string): (image: string)
    ensures image == if category in ImageMap then ImageMap[category] else FallbackImage
  {
    if category in ImageMap && ImageMap[category] != "" then ImageMap[category] else FallbackImage
  }

  /** convertProductToInventoryItem. */
  function ConvertProductToInventoryItem(product: ApiProduct): (item: InventoryItem)
    // copied fields
    ensures item.id == product.id && item.name == product.name && item.description == product.description
    ensures item.price == product.unitPrice
    // the category is always a known one; anything else, whatever its case, becomes pantry
    ensures item.category in CategoryMap
    ensures product.category in CategoryMap ==> item.category == product.category
    ensures product.category !in CategoryMap ==> item.category == FallbackCategory
    ensures item.image == (if product.category in ImageMap then ImageMap[product.category] else FallbackImage)
    ensures product.unitSize.Some? && product.unitSize.value != "" ==> item.unit == product.unitSize.value
    ensures product.unitSize.None? || product.unitSize.value == "" ==> item.unit == DefaultUnit
    // stock derived from the case counters, missing values read as 0
    ensures item.stockQuantity == OrZero(product.totalUnits) - OrZero(product.soldUnits)
    ensures item.inStock <==> item.stockQuantity > 0
    ensures 50 <= item.popularity <= 95 && item.popularity == Popularity(OrZero(product.soldUnits))
    ensures item.tags == [product.category, "bulk", "community"]
  {
    var remainingStock := OrZero(product.totalUnits) - OrZero(product.soldUnits);
    InventoryItem(
      product.id,
      product.name,
      CategoryOf(product.category),
      product.unitPrice,
      if product.unitSize.Some? && product.unitSize.value != "" then product.unitSize.value else DefaultUnit,
      ImageOf(product.category),
      product.description,
      remainingStock > 0,
      remainingStock,
      "Community Food Network",
      "Local & Imported",
      "Quality assured products",
      "Store according to product type",
      Popularity(OrZero(product.soldUnits)),
      [product.category, "bulk", "community"])
  }

  /** A capitalised category name is not a key of the lookup, so it falls back
      to pantry and to the pantry emoji. */
  lemma CapitalisedCategoryFallsBack(product: ApiProduct)
    requires product.category == "Fruits"
    ensures ConvertProductToInventoryItem(product).category == FallbackCategory
    ensures ConvertProductToInventoryItem(product).image == FallbackImage
  {
    assert product.category[0] == 'F';
    assert product.category !in CategoryMap;
  }
}
