/**
 * The gallery store of app.js: the module-level `gallery` array of generated
 * images, newest first and capped at MAX_GALLERY_ITEMS, mirrored into one
 * localStorage slot.
 */
module Gallery {
  import opened Wrappers

  /** The localStorage key the gallery is persisted under. */
  const STORAGE_KEY: string := "ai_image_gallery"

  /** At most this many items are kept after an insertion. */
  const MAX_GALLERY_ITEMS: nat := 50

  /** One completed generation, as built by generateImage. */
  datatype Item = Item(
    url: string,          // the uploaded image's URL, or originalUrl when the upload failed
    originalUrl: string,  // the generation-service URL
    prompt: string,       // the trimmed prompt, without style or quality suffixes
    model: string,
    size: string,
    timestamp: int)

  /** What JSON.parse makes of a stored text, as far as loadGallery can tell it apart. */
  datatype Parsed =
    | Unparseable                // JSON.parse throws
    | Records(items: seq<Item>)  // an array of gallery records
    | Unrenderable               // a value renderGallery throws on: null, a number, a non-empty string, an object whose length is not 0
    | LengthZero                 // a non-array value whose `length` is 0, such as "" or {"length":0}

  /** JSON.stringify and JSON.parse restricted to the gallery. */
  datatype Codec = Codec(encode: seq<Item> -> string, decode: string -> Parsed)

  /** The codec reads back what it writes, and never writes the empty text. */
  ghost predicate RoundTrips(c: Codec) {
    forall g: seq<Item> :: c.encode(g) != "" && c.decode(c.encode(g)) == Records(g)
  }

  function Min(a: int, b: int): int {
    if a < b then a else b
  }

  /**
   * The gallery after addToGallery: `unshift`, then `slice(0, MAX)` only
   * when the array grew past the cap.
   */
  function Added(g: seq<Item>, item: Item): (r: seq<Item>)
    ensures |r| == Min(|g| + 1, MAX_GALLERY_ITEMS)
    ensures r[0] == item
    ensures r[1..] == g[..|r| - 1]
  {
    var unshifted := [item] + g;
    if |unshifted| > MAX_GALLERY_ITEMS then unshifted[..MAX_GALLERY_ITEMS] else unshifted
  }

  /**
   * What loadGallery is meant to read from storage (`saved ? JSON.parse(saved)
   * : []` inside a try): the stored records, or the empty gallery for an
   * absent, empty or corrupt slot.
   */
  function Loaded(c: Codec, slots: map<string, string>): (g: seq<Item>)
    ensures STORAGE_KEY !in slots || slots[STORAGE_KEY] == "" ==> g == []
    ensures g == [] || (STORAGE_KEY in slots && c.decode(slots[STORAGE_KEY]) == Records(g))
    ensures STORAGE_KEY in slots && slots[STORAGE_KEY] != "" && c.decode(slots[STORAGE_KEY]).Records?
            ==> g == c.decode(slots[STORAGE_KEY]).items
    ensures STORAGE_KEY in slots && slots[STORAGE_KEY] != "" && !c.decode(slots[STORAGE_KEY]).Records? ==> g == []
  {
    if STORAGE_KEY !in slots || slots[STORAGE_KEY] == "" then []
    else match c.decode(slots[STORAGE_KEY])
      case Records(g) => g
      case _ => []
  }

  /** Storage after saveGallery: setItem either replaces the slot or throws and changes nothing. */
  function Saved(c: Codec, slots: map<string, string>, g: seq<Item>, writeOk: bool): (r: map<string, string>)
    ensures writeOk ==> STORAGE_KEY in r && r[STORAGE_KEY] == c.encode(g)
    ensures !writeOk ==> r == slots
    ensures forall k :: k != STORAGE_KEY ==> (k in r <==> k in slots)
    ensures forall k :: k != STORAGE_KEY && k in r ==> r[k] == slots[k]
  {
    if writeOk then slots[STORAGE_KEY := c.encode(g)] else slots
  }

  /** The value of `gallery` after loadGallery as written: an array, or a non-array value kept as it is. */
  datatype GalleryValue = List(items: seq<Item>) | NonArray

  /**
   * loadGallery as written: a parsed value whose `length` is 0 passes
   * renderGallery without throwing, so it stays in `gallery` even when it is
   * not an array.
   */
  function LoadedAsWritten(c: Codec, slots: map<string, string>): (v: GalleryValue)
    ensures v.NonArray? <==> STORAGE_KEY in slots && slots[STORAGE_KEY] != "" && c.decode(slots[STORAGE_KEY]) == LengthZero
    ensures v.List? ==> v.items == Loaded(c, slots)
  {
    if STORAGE_KEY !in slots || slots[STORAGE_KEY] == "" then List([])
    else match c.decode(slots[STORAGE_KEY])
      case Records(g) => List(g)
      case LengthZero => NonArray
      case _ => List([])
  }

  /**
   * addToGallery as written on the value `gallery` holds: `unshift` throws on
   * a non-array before anything is saved (None).
   */
  function AddedAsWritten(v: GalleryValue, item: Item): (r: Option<seq<Item>>)
    ensures r.Some? <==> v.List?
    ensures r.Some? ==> |r.value| == Min(|v.items| + 1, MAX_GALLERY_ITEMS) && r.value[0] == item
    ensures r.Some? ==> r.value[1..] == v.items[..|r.value| - 1]
  {
    match v
    case List(g) => Some(Added(g, item))
    case NonArray => None
  }

  /**
   * clearGallery as written on the value `gallery` holds: the user is asked
   * only when `gallery.length` is not 0, and a non-array kept by loadGallery
   * has length 0.
   */
  function AsksToClearAsWritten(v: GalleryValue): (asked: bool)
    ensures asked <==> v.List? && v.items != []
  {
    match v
    case List(g) => |g| != 0
    case NonArray => false
  }

  /**
   * A slot holding such a value (the JSON text `""`) is loaded as a
   * non-array, and every later addition throws before saving, so the slot
   * is never repaired; clearGallery returns early on its zero length.
   */
  lemma CorruptSlotIsKept(c: Codec, slots: map<string, string>, item: Item)
    requires STORAGE_KEY in slots && slots[STORAGE_KEY] != ""
    requires c.decode(slots[STORAGE_KEY]) == LengthZero
    ensures LoadedAsWritten(c, slots) == NonArray
    ensures AddedAsWritten(LoadedAsWritten(c, slots), item) == None
    ensures !AsksToClearAsWritten(LoadedAsWritten(c, slots))
  {
  }

  /**
   * With the intended fallback the same slot loads as the empty gallery, and
   * the next addition succeeds and is saved over the corrupt text.
   */
  lemma CorruptSlotRecovers(c: Codec, slots: map<string, string>, item: Item, writeOk: bool)
    requires STORAGE_KEY in slots && !c.decode(slots[STORAGE_KEY]).Records?
    ensures Loaded(c, slots) == []
    ensures Added(Loaded(c, slots), item) == [item]
    ensures RoundTrips(c) && writeOk ==> Loaded(c, Saved(c, slots, [item], writeOk)) == [item]
  {
  }

  /** Round trip: loading after a successful save gives back the saved gallery. */
  lemma LoadAfterSave(c: Codec, slots: map<string, string>, g: seq<Item>)
    requires RoundTrips(c)
    ensures Loaded(c, Saved(c, slots, g, true)) == g
  {
  }

  /** A sequence of addToGallery calls, oldest call first. */
  function AddedAll(g: seq<Item>, items: seq<Item>): seq<Item>
    decreases |items|
  {
    if items == [] then g else AddedAll(Added(g, items[0]), items[1..])
  }

  function Reversed(s: seq<Item>): (r: seq<Item>)
    ensures |r| == |s|
  {
    if s == [] then [] else Reversed(s[1..]) + [s[0]]
  }

  /**
   * Capacity and order over any non-empty run of additions: the gallery holds
   * the newest items, newest first, then the older gallery, cut at the cap.
   */
  lemma {:induction false} AddedAllShape(g: seq<Item>, items: seq<Item>)
    requires items != []
    ensures AddedAll(g, items) == (Reversed(items) + g)[..Min(|items| + |g|, MAX_GALLERY_ITEMS)]
    decreases |items|
  {
    var x, rest := items[0], items[1..];
    var g1 := Added(g, x);
    var m1 := Min(|g| + 1, MAX_GALLERY_ITEMS);
    var n := Min(|items| + |g|, MAX_GALLERY_ITEMS);
    assert AddedAll(g, items) == AddedAll(g1, rest);
    assert g1 == ([x] + g)[..m1];
    assert Reversed(items) + g == Reversed(rest) + ([x] + g);
    if rest == [] {
      assert Reversed(rest) == [];
    } else {
      AddedAllShape(g1, rest);
      assert Min(|rest| + |g1|, MAX_GALLERY_ITEMS) == n;
    }
    PrefixOfCut(Reversed(rest), [x] + g, m1, n);
  }

  /** Cutting the tail before taking a prefix that does not reach the cut changes nothing. */
  lemma PrefixOfCut(a: seq<Item>, b: seq<Item>, m: nat, n: nat)
    requires m <= |b| && n <= |a| + m
    ensures (a + b[..m])[..n] == (a + b)[..n]
  {
    assert forall k :: 0 <= k < n ==> (a + b[..m])[k] == (a + b)[k];
  }

  /** Every run of additions leaves at most MAX_GALLERY_ITEMS items, whatever was loaded. */
  lemma AddedAllBounded(g: seq<Item>, items: seq<Item>)
    requires items != []
    ensures |AddedAll(g, items)| == Min(|items| + |g|, MAX_GALLERY_ITEMS)
    ensures AddedAll(g, items)[0] == items[|items| - 1]
  {
    AddedAllShape(g, items);
    ReversedHead(items);
  }

  lemma {:induction false} ReversedHead(s: seq<Item>)
    requires s != []
    ensures Reversed(s)[0] == s[|s| - 1]
    decreases |s|
  {
    if |s| > 1 {
      ReversedHead(s[1..]);
    }
  }

  /**
   * The module-level state of app.js: the in-memory `gallery` and the
   * localStorage it is mirrored into (`slots`, every key, not only STORAGE_KEY).
   */
  class GalleryStore {
    var gallery: seq<Item>
    var slots: map<string, string>
    const codec: Codec

    /** The state before DOMContentLoaded: `let gallery = []`. */
    constructor (codec: Codec, slots: map<string, string>)
      ensures this.codec == codec && this.slots == slots && gallery == []
    {
      this.codec := codec;
      this.slots := slots;
      gallery := [];
    }

    /**
     * loadGallery with the intended fallback: a read that throws, an absent
     * or empty slot, or a slot that does not hold records, gives the empty
     * gallery (LoadedAsWritten shows where the code keeps a non-array).
     */
    method LoadGallery(readOk: bool)
      modifies this`gallery
      ensures !readOk ==> gallery == []
      ensures readOk ==> gallery == Loaded(codec, slots)
    {
      if readOk && STORAGE_KEY in slots && slots[STORAGE_KEY] != "" {
        var parsed := codec.decode(slots[STORAGE_KEY]);
        if parsed.Records? {
          gallery := parsed.items;
        } else {
          gallery := [];
        }
      } else {
        gallery := [];
      }
    }

    /** saveGallery: a failed write is swallowed; only STORAGE_KEY is ever written. */
    method SaveGallery(writeOk: bool)
      modifies this`slots
      ensures writeOk ==> slots == old(slots)[STORAGE_KEY := codec.encode(gallery)]
      ensures !writeOk ==> slots == old(slots)
      ensures forall k :: k != STORAGE_KEY ==> (k in slots <==> k in old(slots))
      ensures forall k :: k != STORAGE_KEY && k in slots ==> slots[k] == old(slots)[k]
    {
      if writeOk {
        slots := slots[STORAGE_KEY := codec.encode(gallery)];
      }
    }

    /**
     * addToGallery: the item goes to the head, the tail beyond the cap is
     * dropped, and the result is persisted when the write succeeds.
     */
    method AddToGallery(item: Item, writeOk: bool)
      modifies this`gallery, this`slots
      ensures gallery == Added(old(gallery), item)
      ensures slots == Saved(codec, old(slots), gallery, writeOk)
      ensures writeOk && RoundTrips(codec) ==> Loaded(codec, slots) == gallery
    {
      gallery := [item] + gallery;
      if |gallery| > MAX_GALLERY_ITEMS {
        gallery := gallery[..MAX_GALLERY_ITEMS];
      }
      SaveGallery(writeOk);
      if writeOk && RoundTrips(codec) {
        LoadAfterSave(codec, old(slots), gallery);
      }
    }

    /**
     * clearGallery: on an empty gallery nothing happens and the user is not
     * asked; otherwise the gallery is emptied and saved only if confirmed.
     */
    method ClearGallery(confirmed: bool, writeOk: bool) returns (asked: bool)
      modifies this`gallery, this`slots
      ensures asked <==> old(gallery) != []
      ensures !asked ==> gallery == old(gallery) && slots == old(slots)
      ensures asked && !confirmed ==> gallery == old(gallery) && slots == old(slots)
      ensures asked && confirmed ==> gallery == [] && slots == Saved(codec, old(slots), [], writeOk)
      ensures asked && confirmed && writeOk && RoundTrips(codec) ==> Loaded(codec, slots) == []
    {
      if |gallery| == 0 {
        return false;
      }
      asked := true;
      if confirmed {
        gallery := [];
        SaveGallery(writeOk);
      }
    }
  }
}
