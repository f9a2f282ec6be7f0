/** Listing records as the scraper, the normaliser and the store pass them around: Python
    dictionaries from field name to a loosely typed value. */
module Records {
  import opened Basics
  import opened TextOps

  /** The kinds of value a listing dictionary holds (`datetime` values as `Time`). */
  datatype Value = Null | Bool(b: bool) | Int(i: int) | Num(x: real) | Str(s: string) | Time(t: int)

  type Record = map<Field, Value>

  /** The exceptions the core raises and catches. */
  datatype PyError = AttributeError | TypeError | ValueError | IndexError

  /** The parts of the Python runtime the model leaves uninterpreted: `str()` of a float and
      of a datetime, and `hashlib.sha256(text.encode()).hexdigest()`. Every statement about
      them holds whatever these functions are. */
  datatype Runtime = Runtime(floatStr: real -> string, timeStr: int -> string, sha256: string -> string)

  /** The dictionary keys the core reads and writes (each is a column of the listing table),
      and any other key as `Other`. */
  datatype Field =
      TitleKey  // "title"
    | CityKey  // "city"
    | AreaKey  // "area"
    | SectorKey  // "sector_block"
    | AddressKey  // "full_address"
    | PriceRawKey  // "price_raw"
    | PriceKey  // "price_pkr"
    | PricePerSqftKey  // "price_per_sqft"
    | TypeKey  // "property_type"
    | BedroomsKey  // "bedrooms"
    | BathroomsKey  // "bathrooms"
    | AreaSizeKey  // "area_size"
    | AreaUnitKey  // "area_unit"
    | AreaRawKey  // "area_raw"
    | AgentKey  // "agent_name"
    | SellerKey  // "seller_name"
    | PhoneKey  // "contact_phone"
    | EmailKey  // "contact_email"
    | SourceKey  // "source_website"
    | SourceUrlKey  // "source_url"
    | ListingIdKey  // "listing_id"
    | PostedKey  // "date_posted"
    | ScrapedKey  // "date_scraped"
    | DuplicateKey  // "is_duplicate"
    | QualityKey  // "data_quality_score"
    | HashKey  // "content_hash"
    | IdKey  // "id"
    | Other(name: string)

  /** The dictionary key a field stands for. */
  function Name(f: Field): string {
    match f
    case TitleKey => "title"
    case CityKey => "city"
    case AreaKey => "area"
    case SectorKey => "sector_block"
    case AddressKey => "full_address"
    case PriceRawKey => "price_raw"
    case PriceKey => "price_pkr"
    case PricePerSqftKey => "price_per_sqft"
    case TypeKey => "property_type"
    case BedroomsKey => "bedrooms"
    case BathroomsKey => "bathrooms"
    case AreaSizeKey => "area_size"
    case AreaUnitKey => "area_unit"
    case AreaRawKey => "area_raw"
    case AgentKey => "agent_name"
    case SellerKey => "seller_name"
    case PhoneKey => "contact_phone"
    case EmailKey => "contact_email"
    case SourceKey => "source_website"
    case SourceUrlKey => "source_url"
    case ListingIdKey => "listing_id"
    case PostedKey => "date_posted"
    case ScrapedKey => "date_scraped"
    case DuplicateKey => "is_duplicate"
    case QualityKey => "data_quality_score"
    case HashKey => "content_hash"
    case IdKey => "id"
    case Other(name) => name
  }

  /** Python truthiness. */
  predicate Truthy(v: Value) {
    match v
    case Null => false
    case Bool(b) => b
    case Int(i) => i != 0
    case Num(x) => x != 0.0
    case Str(s) => s != []
    case Time(_) => true
  }

  /** `d.get(key, default)` */
  function Get(d: Record, key: Field, default: Value): Value {
    if key in d then d[key] else default
  }

  /** `if d.get(key):` */
  predicate Has(d: Record, key: Field) {
    key in d && Truthy(d[key])
  }

  /** `str(v)` */
  function Show(rt: Runtime, v: Value): string {
    match v
    case Null => "None"
    case Bool(b) => if b then "True" else "False"
    case Int(i) => IntToString(i)
    case Num(x) => rt.floatStr(x)
    case Str(s) => s
    case Time(t) => rt.timeStr(t)
  }

  /** A value as a number in arithmetic (`bool` counts as an `int`), or None for the kinds
      arithmetic rejects with a TypeError. */
  function AsReal(v: Value): Option<real> {
    match v
    case Bool(b) => Some(if b then 1.0 else 0.0)
    case Int(i) => Some(i as real)
    case Num(x) => Some(x)
    case _ => None
  }

  /** An optional float as a dictionary value (`None` for absence). */
  function OptNum(o: Option<real>): (v: Value)
    ensures v.Null? <==> o.None?
    ensures o.Some? ==> v == Num(o.value)
  {
    match o
    case Some(x) => Num(x)
    case None => Null
  }

  /** `f"{d.get(k1, '')}{d.get(k2, '')}..."`: the shown values of `keys`, concatenated with no
      delimiter, a missing key showing as the empty string. */
  function KeyString(rt: Runtime, d: Record, keys: seq<Field>): string {
    if keys == [] then [] else Show(rt, Get(d, keys[0], Str([]))) + KeyString(rt, d, keys[1..])
  }

  /** The key string reads only the listed fields. */
  lemma {:induction false} KeyStringReadsKeys(rt: Runtime, d: Record, e: Record, keys: seq<Field>)
    requires forall k :: k in keys ==> Get(d, k, Str([])) == Get(e, k, Str([]))
    ensures KeyString(rt, d, keys) == KeyString(rt, e, keys)
  {
    if keys != [] {
      KeyStringReadsKeys(rt, d, e, keys[1..]);
    }
  }
}
