/**
 * The dark-mode hook (`phoenix-client/src/hooks/useDarkMode.js`): the flag
 * starts from the saved preference, or the system preference when none is
 * saved; toggling flips it; the effect mirrors it into `localStorage` and
 * into the root element's `dark` class.
 */
module DarkMode {
  import opened Wrappers
  import opened Browser

  const PreferenceKey: string := "theme-preference"
  const DarkClass: string := "dark"

  /** The value the effect stores for a flag. */
  function PreferenceOf(isDark: bool): (r: string)
    ensures r == "dark" <==> isDark
    ensures r == "dark" || r == "light"
  {
    if isDark then "dark" else "light"
  }

  /**
   * The initial flag. `hasWindow` is false when the hook runs without a
   * browser window; `systemPrefersDark` is the `prefers-color-scheme: dark`
   * media query.
   */
  function InitialDarkMode(hasWindow: bool, saved: Option<string>, systemPrefersDark: bool): bool {
    if !hasWindow then false
    else if saved == Some("dark") then true
    else if saved == Some("light") then false
    else systemPrefersDark
  }

  /** The four cases of the initial flag. */
  lemma InitialDarkModeCases(hasWindow: bool, saved: Option<string>, systemPrefersDark: bool)
    ensures !hasWindow ==> !InitialDarkMode(hasWindow, saved, systemPrefersDark)
    ensures hasWindow && saved == Some("dark") ==> InitialDarkMode(hasWindow, saved, systemPrefersDark)
    ensures hasWindow && saved == Some("light") ==> !InitialDarkMode(hasWindow, saved, systemPrefersDark)
    ensures hasWindow && saved != Some("dark") && saved != Some("light") ==>
      InitialDarkMode(hasWindow, saved, systemPrefersDark) == systemPrefersDark
  {
  }

  /** What the effect stores, read back at the next start, is the flag again, whatever the system says. */
  lemma PersistThenReload(items: map<string, string>, isDark: bool, systemPrefersDark: bool)
    ensures InitialDarkMode(true, Lookup(items[PreferenceKey := PreferenceOf(isDark)], PreferenceKey), systemPrefersDark)
      == isDark
  {
    var saved := Lookup(items[PreferenceKey := PreferenceOf(isDark)], PreferenceKey);
    assert saved == Some(PreferenceOf(isDark));
    assert "dark" != "light";
  }

  /** The hook's state, with the storage and the root class list it writes to. */
  class DarkModeHook {
    const storage: Storage
    const root: ClassList
    var isDarkMode: bool

    /** The lazy `useState` initialiser. */
    constructor (hasWindow: bool, storage: Storage, root: ClassList, systemPrefersDark: bool)
      ensures this.storage == storage && this.root == root
      ensures isDarkMode == InitialDarkMode(hasWindow, Lookup(storage.items, PreferenceKey), systemPrefersDark)
    {
      this.storage := storage;
      this.root := root;
      if !hasWindow {
        isDarkMode := false;
      } else {
        var saved := storage.GetItem(PreferenceKey);
        if saved == Some("dark") {
          isDarkMode := true;
        } else if saved == Some("light") {
          isDarkMode := false;
        } else {
          isDarkMode := systemPrefersDark;
        }
      }
    }

    /** `toggleDarkMode`: two toggles restore the flag. */
    method ToggleDarkMode()
      modifies this`isDarkMode
      ensures isDarkMode == !old(isDarkMode)
    {
      isDarkMode := !isDarkMode;
    }

    /**
     * The effect that runs when the flag changes: afterwards the stored
     * preference is "dark" exactly when the flag is set, and so is the root's
     * `dark` class; other keys and classes are untouched.
     */
    method ApplyEffect()
      modifies storage, root
      ensures storage.items == old(storage.items)[PreferenceKey := PreferenceOf(isDarkMode)]
      ensures root.classes == if isDarkMode then old(root.classes) + {DarkClass} else old(root.classes) - {DarkClass}
      ensures Lookup(storage.items, PreferenceKey) == Some("dark") <==> isDarkMode
      ensures DarkClass in root.classes <==> isDarkMode
    {
      if isDarkMode {
        root.Add(DarkClass);
        storage.SetItem(PreferenceKey, "dark");
      } else {
        root.Remove(DarkClass);
        storage.SetItem(PreferenceKey, "light");
      }
    }
  }
}
