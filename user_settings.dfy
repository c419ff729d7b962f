/**
 * src/services/UserSettingsService.ts: the chosen colour-pairing id kept
 * in the browser's localStorage under one key, read back with a legacy
 * fallback and the default pairing when nothing usable is stored.
 *
 * localStorage is a map from key to stored item. An item is held already
 * parsed: the empty string, text that JSON.parse rejects, or a JSON value.
 */
module UserSettings {
  import opened Wrappers
  import opened ColorPairings

  const StorageKey: string := "tab.show.userSettings"

  /** A field of a parsed object: absent, a string, or some other JSON value. */
  datatype Field = Absent | Str(s: string) | NonString

  /** The parsed JSON value: an object with the two fields read, or anything else (null, number, array, ...). */
  datatype Json =
    | Object(colorPairingId: Field, legacyColorPairingId: Option<string>)   // `colorPairing?.id`
    | NotAnObject

  datatype StoredItem = EmptyText | Malformed | Parsed(json: Json)

  datatype UserSettings = UserSettings(colorPairingId: string)

  /**
   * `readSettings`: null without storage or without a (non-empty) item;
   * otherwise a string `colorPairingId` wins, then a non-empty legacy
   * `colorPairing.id`, else null; a parse failure is null too.
   */
  function ReadSettings(storageAvailable: bool, storage: map<string, StoredItem>): (r: Option<UserSettings>)
    ensures !storageAvailable ==> r == None
    ensures StorageKey !in storage ==> r == None
    ensures r.Some? ==> storageAvailable && StorageKey in storage && storage[StorageKey].Parsed?
  {
    if !storageAvailable then None
    else if StorageKey !in storage then None
    else match storage[StorageKey]
      case EmptyText => None
      case Malformed => None
      case Parsed(json) =>
        match json
        case NotAnObject => None
        case Object(current, legacy) =>
          if current.Str? then Some(UserSettings(current.s))
          else if legacy.Some? && legacy.value != "" then Some(UserSettings(legacy.value))
          else None
  }

  /** The item `writeSettings` stores: the parse of `JSON.stringify(settings)`. */
  function Serialized(settings: UserSettings): StoredItem
  {
    Parsed(Object(Str(settings.colorPairingId), None))
  }

  /** `readSettings(...)?.colorPairingId ?? DEFAULT_COLOR_PAIRING_ID`. */
  function ColorPairingIdFrom(storageAvailable: bool, storage: map<string, StoredItem>): (r: string)
    ensures ReadSettings(storageAvailable, storage).None? ==> r == DefaultColorPairingId
    ensures !storageAvailable ==> r == DefaultColorPairingId
  {
    match ReadSettings(storageAvailable, storage)
    case Some(settings) => settings.colorPairingId
    case None => DefaultColorPairingId
  }

  /** A stored string `colorPairingId` is returned as is, even the empty string. */
  lemma CurrentFieldWins(storage: map<string, StoredItem>, id: string, legacy: Option<string>)
    requires StorageKey in storage && storage[StorageKey] == Parsed(Object(Str(id), legacy))
    ensures ColorPairingIdFrom(true, storage) == id
  {
  }

  /** Without a string `colorPairingId`, a non-empty legacy `colorPairing.id` is used. */
  lemma LegacyFieldFallback(storage: map<string, StoredItem>, current: Field, legacy: string)
    requires !current.Str? && legacy != ""
    requires StorageKey in storage && storage[StorageKey] == Parsed(Object(current, Some(legacy)))
    ensures ColorPairingIdFrom(true, storage) == legacy
  {
  }

  /** Nothing usable stored (no item, empty text, a parse failure, no usable field) gives the default id. */
  lemma UnusableItemGivesDefault(storage: map<string, StoredItem>)
    requires StorageKey in storage ==>
      match storage[StorageKey]
      case EmptyText => true
      case Malformed => true
      case Parsed(json) =>
        json.NotAnObject? || (!json.colorPairingId.Str? && (json.legacyColorPairingId.None? || json.legacyColorPairingId.value == ""))
    ensures ColorPairingIdFrom(true, storage) == DefaultColorPairingId
  {
  }

  /** `writeSettings`: stores the serialized settings, unless storage is missing or `setItem` threw. */
  function WriteSettings(storageAvailable: bool, storage: map<string, StoredItem>, settings: UserSettings,
                         setItemSucceeded: bool): (r: map<string, StoredItem>)
    ensures !storageAvailable || !setItemSucceeded ==> r == storage
    ensures storageAvailable && setItemSucceeded ==>
      StorageKey in r && r[StorageKey] == Serialized(settings) && r.Keys == storage.Keys + {StorageKey}
    ensures forall k :: k in storage && k != StorageKey ==> k in r && r[k] == storage[k]
  {
    if !storageAvailable || !setItemSucceeded then storage
    else storage[StorageKey := Serialized(settings)]
  }

  /** Saving an id and reading it back returns that id whenever the write went through. */
  lemma SaveThenGet(storage: map<string, StoredItem>, id: string)
    ensures ColorPairingIdFrom(true, WriteSettings(true, storage, UserSettings(id), true)) == id
  {
  }

  /** A write that did not go through leaves the id that is read unchanged. */
  lemma FailedSaveKeepsId(storageAvailable: bool, storage: map<string, StoredItem>, id: string)
    ensures ColorPairingIdFrom(storageAvailable, WriteSettings(storageAvailable, storage, UserSettings(id), false))
         == ColorPairingIdFrom(storageAvailable, storage)
  {
  }

  /** The service object; `storageAvailable` is decided once by the constructor. */
  class UserSettingsService {
    var storageAvailable: bool
    /** The browser's localStorage as this service sees it. */
    var localStorage: map<string, StoredItem>

    /** `hasWindowStorage` stands for `typeof window !== 'undefined' && typeof window.localStorage !== 'undefined'`. */
    constructor (hasWindowStorage: bool, initialStorage: map<string, StoredItem>)
      ensures storageAvailable == hasWindowStorage && localStorage == initialStorage
    {
      storageAvailable := hasWindowStorage;
      localStorage := initialStorage;
    }

    function GetColorPairingId(): (r: string)
      reads this
      ensures !storageAvailable ==> r == DefaultColorPairingId
    {
      ColorPairingIdFrom(storageAvailable, localStorage)
    }

    /** The pairing named by the stored id; always one of the listed pairings. */
    function GetColorPairing(): (r: ColorPairing)
      reads this
      ensures r in ColorPairingList
      ensures (exists p :: p in ColorPairingList && p.id == GetColorPairingId()) ==> r.id == GetColorPairingId()
    {
      GetColorPairingById(GetColorPairingId())
    }

    /** `saveColorPairingId`; `setItemSucceeded` is whether `localStorage.setItem` returned normally. */
    method SaveColorPairingId(colorPairingId: string, setItemSucceeded: bool)
      modifies this
      ensures storageAvailable == old(storageAvailable)
      ensures localStorage == WriteSettings(storageAvailable, old(localStorage), UserSettings(colorPairingId), setItemSucceeded)
      ensures storageAvailable && setItemSucceeded ==> GetColorPairingId() == colorPairingId
      ensures !storageAvailable ==> localStorage == old(localStorage)
    {
      localStorage := WriteSettings(storageAvailable, localStorage, UserSettings(colorPairingId), setItemSucceeded);
      SaveThenGet(old(localStorage), colorPairingId);
    }
  }
}
