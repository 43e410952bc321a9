/** The versioned storage envelope (src/shared/lib/storage.ts) over a model of
    `localStorage`. A slot holds an already-decoded value: JSON text is not modelled,
    only the shapes `JSON.parse` can hand back that `readStorage` tells apart. */
module Storage {
  import opened Wrappers

  /** What a key's stored text decodes to. In an envelope object, `version` is
      `None` when the property is missing or is not a number, and `data` is `None`
      when it is missing or `null`. */
  datatype Stored<T> =
    | EmptyText                 // ""
    | Unparseable               // JSON.parse throws
    | NotAnObject               // a number, string or boolean
    | JsonNull                  // null (typeof null is "object")
    | Envelope(version: Option<real>, savedAt: Option<string>, data: Option<T>)

  /** `readStorage`: the envelope's data when the slot decodes to an object whose
      numeric version equals the expected one; absent on every other path. */
  function ReadStorage<T>(slots: map<string, Stored<T>>, key: string, expectedVersion: real): (r: Option<T>)
    ensures r.Some? <==>
      && key in slots && slots[key].Envelope?
      && slots[key].version == Some(expectedVersion) && slots[key].data.Some?
    ensures r.Some? ==> r.value == slots[key].data.value
  {
    if key !in slots then None
    else match slots[key]
      case EmptyText => None
      case Unparseable => None
      case NotAnObject => None
      case JsonNull => None
      case Envelope(version, _, data) =>
        if version.None? then None
        else if version.value != expectedVersion then None
        else data
  }

  /** The slot `writeStorage` leaves behind. */
  function EnvelopeOf<T>(version: real, savedAt: string, data: T): Stored<T> {
    Envelope(Some(version), Some(savedAt), Some(data))
  }

  /** Writing then reading under the same version gives the data back; any other
      version reads as absent; other keys read as before. */
  lemma WriteThenRead<T>(slots: map<string, Stored<T>>, key: string, version: real, savedAt: string,
                         data: T, other: string, otherVersion: real)
    ensures ReadStorage(slots[key := EnvelopeOf(version, savedAt, data)], key, version) == Some(data)
    ensures otherVersion != version ==>
              ReadStorage(slots[key := EnvelopeOf(version, savedAt, data)], key, otherVersion) == None
    ensures other != key ==>
              ReadStorage(slots[key := EnvelopeOf(version, savedAt, data)], other, otherVersion)
              == ReadStorage(slots, other, otherVersion)
  {
  }

  /** Browser `localStorage`, one slot per key. */
  class LocalStorage<T> {
    var slots: map<string, Stored<T>>

    constructor (initial: map<string, Stored<T>>)
      ensures slots == initial
    {
      slots := initial;
    }

    /** Reading depends on the slots only and changes nothing. */
    function Read(key: string, expectedVersion: real): (r: Option<T>)
      reads this
      ensures r == ReadStorage(slots, key, expectedVersion)
    {
      ReadStorage(slots, key, expectedVersion)
    }

    /** `writeStorage`: the whole slot is replaced by a fresh envelope; no other key moves.
        The clock reading for `savedAt` is a parameter. */
    method Write(key: string, version: real, savedAt: string, data: T)
      modifies this
      ensures slots == old(slots)[key := EnvelopeOf(version, savedAt, data)]
      ensures forall k :: k != key && k in old(slots) ==> k in slots && slots[k] == old(slots)[k]
    {
      slots := slots[key := EnvelopeOf(version, savedAt, data)];
    }
  }
}
