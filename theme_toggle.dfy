/** The dark/light switch (`ThemeToggle`): the theme flag, its copy under the
    key "theme" in the browser's key-value store, and the `dark` class of the
    document element. */
module ThemeToggle {
  import opened Wrappers

  /** The store key. */
  const ThemeKey: string := "theme"

  /** `localStorage.getItem(key)`: null for a missing key. */
  function Lookup(store: map<string, string>, key: string): (v: Option<string>)
    ensures v.Some? <==> key in store
    ensures v.Some? ==> v.value == store[key]
  {
    if key in store then Some(store[key]) else None
  }

  /** The flag after the load effect with `saved` read from the store: a
      missing or empty value keeps the current flag, "dark" gives dark, and
      any other value gives light. */
  function Decode(saved: Option<string>, current: bool): (isDark: bool)
    ensures saved.None? || saved == Some("") ==> isDark == current
    ensures saved.Some? && saved.value != "" ==> (isDark <==> saved.value == "dark")
  {
    if saved.Some? && saved.value != "" then saved.value == "dark" else current
  }

  /** `isDark ? "dark" : "light"`, the value the sync effect persists. */
  function Encode(isDark: bool): (v: string)
    ensures v == "dark" || v == "light"
    ensures v != ""
  {
    if isDark then "dark" else "light"
  }

  /** Persisting a flag and loading it back restores the flag, whatever the
      flag in effect before the load. */
  lemma LoadAfterPersist(store: map<string, string>, isDark: bool, current: bool)
    ensures Decode(Lookup(store[ThemeKey := Encode(isDark)], ThemeKey), current) == isDark
  {
  }

  /** Encoding is the inverse of decoding on the two persisted values. */
  lemma PersistAfterLoad(v: string, current: bool)
    requires v == "dark" || v == "light"
    ensures Encode(Decode(Some(v), current)) == v
  {
  }

  class ThemeToggleState {
    var isDark: bool
    var store: map<string, string>
    var darkClass: bool

    /** After the sync effect: the class follows the flag and the store holds
        its encoding. */
    predicate Synced()
      reads this
    {
      darkClass == isDark && ThemeKey in store && store[ThemeKey] == Encode(isDark)
    }

    /** Mounting over the store contents `initial`: the load effect reads the
        saved value, the sync effect then runs with the initial dark flag
        (writing "dark"), and runs again if the load changed the flag. */
    constructor (initial: map<string, string>)
      ensures Synced()
      ensures isDark == Decode(Lookup(initial, ThemeKey), true)
      ensures store == initial[ThemeKey := Encode(isDark)]
    {
      var saved := Lookup(initial, ThemeKey);
      isDark := true;
      darkClass := true;
      store := initial[ThemeKey := "dark"];
      new;
      if saved.Some? && saved.value != "" {
        var loaded := saved.value == "dark";
        if loaded != isDark {
          isDark := loaded;
          darkClass := isDark;
          store := store[ThemeKey := Encode(isDark)];
        }
      }
    }

    /** The button: flip the flag, then the sync effect updates the class and
        the store. */
    method Toggle()
      modifies this
      ensures Synced()
      ensures isDark == !old(isDark)
      ensures store == old(store)[ThemeKey := Encode(isDark)]
    {
      isDark := !isDark;
      darkClass := isDark;
      store := store[ThemeKey := Encode(isDark)];
    }
  }
}
