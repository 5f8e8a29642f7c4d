/**
 * The browser's key/value store as the components use it: two keys,
 * `darkMode` and `bookmarkedSubjects`, each read once when a component
 * mounts and written whenever the value changes.
 */
module Preferences {

  /**
   * What `localStorage.getItem(key)` yields: no entry (null), the empty
   * string (falsy, so treated like no entry), or a JSON text that decodes to
   * `value`.
   */
  datatype Saved<T> = Missing | Blank | Json(value: T)

  /** `saved ? JSON.parse(saved) : fallback` */
  function LoadOr<T>(saved: Saved<T>, fallback: T): (v: T)
    ensures !saved.Json? ==> v == fallback
    ensures saved.Json? ==> v == saved.value
  {
    match saved
    case Json(x) => x
    case _ => fallback
  }

  class PreferenceStore {
    var darkMode: Saved<bool>
    var bookmarkedSubjects: Saved<seq<string>>

    /** A store holding whatever an earlier session left in it. */
    constructor (darkMode: Saved<bool>, bookmarkedSubjects: Saved<seq<string>>)
      ensures this.darkMode == darkMode && this.bookmarkedSubjects == bookmarkedSubjects
    {
      this.darkMode := darkMode;
      this.bookmarkedSubjects := bookmarkedSubjects;
    }
  }
}
