/**
 * Creating a new inventory item from the sheet's "create" button: the
 * requested type is normalised and clamped to the three item types, and the
 * new item gets a name derived from the type and default system data.
 */
module Items {
  import opened Wrappers
  import opened JsText

  /** The item types the sheet creates. */
  const Kinds: set<string> := {"objet", "arme", "armure"}

  /** The type used when none is given or the given one is not recognised. */
  const DefaultKind: string := "objet"

  /** The creation payload handed to the host. */
  datatype ItemPayload = ItemPayload(name: string, kind: string, qty: int, poids: int, description: string)

  /**
   * The raw type of a click: the element's `data-type` as read through
   * `dataset`, then as an attribute, then the default.
   */
  function RequestedKind(datasetType: Option<string>, attrType: Option<string>): (r: string)
    ensures datasetType.Some? ==> r == datasetType.value
    ensures datasetType.None? && attrType.Some? ==> r == attrType.value
    ensures datasetType.None? && attrType.None? ==> r == DefaultKind
  {
    datasetType.GetOr(attrType.GetOr(DefaultKind))
  }

  /** Trim, lower-case, and fall back to the default for anything but the three types. */
  function NormalizeKind(raw: string): (k: string)
    ensures k in Kinds
    ensures ToLower(Trim(raw)) in Kinds ==> k == ToLower(Trim(raw))
    ensures ToLower(Trim(raw)) !in Kinds ==> k == DefaultKind
  {
    var t := ToLower(Trim(raw));
    if t in Kinds then t else DefaultKind
  }

  /** The three type names are already trimmed and lower-case. */
  lemma KindsAreNormal(k: string)
    requires k in Kinds
    ensures ToLower(Trim(k)) == k
  {
    if k == "objet" {
      NormalFixed("objet");
    } else if k == "arme" {
      NormalFixed("arme");
    } else {
      NormalFixed("armure");
    }
  }

  /** Normalising a normalised type changes nothing. */
  lemma NormalizeIdempotent(raw: string)
    ensures NormalizeKind(NormalizeKind(raw)) == NormalizeKind(raw)
  {
    KindsAreNormal(NormalizeKind(raw));
  }

  /** The payload of a new item of type `kind`. */
  function NewItem(kind: string): (p: ItemPayload)
    ensures p.kind == kind
    ensures p.qty == 1 && p.poids == 0 && p.description == ""
    ensures |p.name| == |kind|
    ensures |kind| > 0 ==> p.name[0] == UpperChar(kind[0]) && p.name[1..] == kind[1..]
  {
    ItemPayload(Capitalize(kind), kind, 1, 0, "")
  }

  /** What one click on the create button asks the host to create. */
  function CreateItem(datasetType: Option<string>, attrType: Option<string>): (p: ItemPayload)
    ensures p.kind == NormalizeKind(RequestedKind(datasetType, attrType))
    ensures p.kind in Kinds
    ensures p == NewItem(p.kind)
    ensures p.name == Capitalize(p.kind)
    ensures p.qty == 1 && p.poids == 0 && p.description == ""
    ensures ToLower(p.name) == p.kind
  {
    var kind := NormalizeKind(RequestedKind(datasetType, attrType));
    KindsAreNormal(kind);
    CapitalizeRoundTrip(kind);
    NewItem(kind)
  }

  /** The names the three types get. */
  lemma NewItemNames()
    ensures NewItem("objet").name == "Objet"
    ensures NewItem("arme").name == "Arme"
    ensures NewItem("armure").name == "Armure"
  {
  }

  /** Padding and capitals are ignored. */
  lemma PaddedKindExample()
    ensures NormalizeKind(" ARME ") == "arme"
  {
    var raw := " ARME ";
    TrimUnique(raw, 1, "ARME");
    LowerExample();
    NormalizeKnown(raw, "ARME", "arme");
  }

  lemma LowerExample()
    ensures ToLower("ARME") == "arme"
  {
  }

  /** A raw type whose trimmed lower-case form is one of the three types normalises to it. */
  lemma NormalizeKnown(raw: string, trimmed: string, k: string)
    requires Trim(raw) == trimmed && ToLower(trimmed) == k && k in Kinds
    ensures NormalizeKind(raw) == k
  {
  }

  /** An unknown type becomes an "objet". */
  lemma UnknownKindExample()
    ensures NormalizeKind("potion") == "objet"
  {
    NormalFixed("potion");
  }

  /** A click without a type creates an "Objet". */
  lemma MissingKindExample()
    ensures CreateItem(None, None) == ItemPayload("Objet", "objet", 1, 0, "")
  {
    KindsAreNormal("objet");
  }
}
