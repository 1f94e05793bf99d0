/**
 * The entities the server stores and the request bodies it reads them from.
 *
 * A request body is what `JSON.parse` returns. The model keeps the two shapes the
 * handlers tell apart: `null` (a body that is literally `null`) and an object whose
 * members are strings. The handlers read a field with `const { name = '' } = body || {}`:
 * a member that is present gives its value, a missing one (or a `null` body) gives "".
 */
module Records {
  import opened Wrappers

  datatype Json = Null | Object(members: map<string, string>)

  /** The text columns of a `products` row. */
  datatype ProductFields = ProductFields(name: string, models: string, image: string)

  /** The text columns of a `branches` row. */
  datatype BranchFields = BranchFields(name: string, address: string, phone: string, coordinates: string)

  /** `body || {}`: a `null` body reads as the empty object. */
  function MembersOf(body: Json): (m: map<string, string>)
    ensures body.Null? ==> m == map[]
    ensures body.Object? ==> m == body.members
  {
    match body
    case Null => map[]
    case Object(members) => members
  }

  /** One destructured member with default `''`. */
  function Member(body: Json, key: string): (v: string)
    ensures key in MembersOf(body) ==> v == MembersOf(body)[key]
    ensures key !in MembersOf(body) ==> v == ""
  {
    var m := MembersOf(body);
    if key in m then m[key] else ""
  }

  /** `const { name = '', models = '', image = '' } = body || {}`. */
  function ProductOf(body: Json): ProductFields {
    ProductFields(Member(body, "name"), Member(body, "models"), Member(body, "image"))
  }

  /** `const { name = '', address = '', phone = '', coordinates = '' } = body || {}`. */
  function BranchOf(body: Json): BranchFields {
    BranchFields(Member(body, "name"), Member(body, "address"), Member(body, "phone"), Member(body, "coordinates"))
  }

  /** The JSON object a client sends for a product (`JSON.stringify({ name, models, image })`). */
  function ProductJson(p: ProductFields): Json {
    Object(map["name" := p.name, "models" := p.models, "image" := p.image])
  }

  function BranchJson(b: BranchFields): Json {
    Object(map["name" := b.name, "address" := b.address, "phone" := b.phone, "coordinates" := b.coordinates])
  }

  /** A body that names every field is stored as sent. */
  lemma ProductRoundTrip(p: ProductFields)
    ensures ProductOf(ProductJson(p)) == p
  {
  }

  lemma BranchRoundTrip(b: BranchFields)
    ensures BranchOf(BranchJson(b)) == b
  {
  }

  /** An empty, `null` or unrelated body stores every field as "". */
  lemma EmptyBodyDefaults(body: Json)
    requires forall k | k in MembersOf(body) :: k !in {"name", "models", "image", "address", "phone", "coordinates"}
    ensures ProductOf(body) == ProductFields("", "", "")
    ensures BranchOf(body) == BranchFields("", "", "", "")
  {
  }

  /** Members other than the entity's own (such as an `id`) are ignored. */
  lemma ProductIgnoresOtherMembers(m: map<string, string>, key: string, value: string)
    requires key !in {"name", "models", "image"}
    ensures ProductOf(Object(m[key := value])) == ProductOf(Object(m))
  {
  }

  lemma BranchIgnoresOtherMembers(m: map<string, string>, key: string, value: string)
    requires key !in {"name", "address", "phone", "coordinates"}
    ensures BranchOf(Object(m[key := value])) == BranchOf(Object(m))
  {
  }

  // ---------------------------------------------------------------------------
  // Settings: one row, id = 1, whose `data_json` is a whole JSON object.
  // ---------------------------------------------------------------------------

  type Settings = map<string, string>

  /** The blob the settings row is seeded with. */
  const SeedSettings: Settings := map["aboutText" := "", "contactNumbers" := "", "whatsappNumber" := ""]

  /** `INSERT OR IGNORE INTO settings(id, data_json) VALUES (1, ...)` on an existing or missing row. */
  function SeededSettings(existing: Option<Settings>): (s: Settings)
    ensures existing.Some? ==> s == existing.value
    ensures existing.None? ==> s == SeedSettings && s.Keys == {"aboutText", "contactNumbers", "whatsappNumber"}
    ensures existing.None? ==> forall k | k in s :: s[k] == ""
  {
    match existing
    case Some(row) => row
    case None => SeedSettings
  }

  /** Seeding happens once: running the statement again keeps whatever the row holds. */
  lemma SeedingIsIdempotent(existing: Option<Settings>)
    ensures SeededSettings(Some(SeededSettings(existing))) == SeededSettings(existing)
  {
  }
}
