/**
 * `ThemeService` (src/app/services/theme.service.ts): a light/dark switch that
 * is saved under the `theme` key and mirrored into the classes of the
 * document's body.
 */
module Theme {
  import opened Wrappers
  import opened Storage

  datatype ThemeName = Light | Dark

  /** The value saved under the `theme` key. */
  function Name(t: ThemeName): string
  {
    match t
    case Light => "light"
    case Dark => "dark"
  }

  const LightClass := "light-theme"
  const DarkClass := "dark-theme"

  /** The body class `${theme}-theme`. */
  function ClassOf(t: ThemeName): (c: string)
    ensures c == Name(t) + "-theme"
    ensures c == LightClass || c == DarkClass
  {
    match t
    case Light => LightClass
    case Dark => DarkClass
  }

  /** The two themes have different class names. */
  lemma ThemeClassesDiffer()
    ensures ClassOf(Light) != ClassOf(Dark)
  {
    assert LightClass[0] != DarkClass[0];
  }

  /** The other theme. */
  function Flip(t: ThemeName): (r: ThemeName)
    ensures r != t
  {
    if t == Light then Dark else Light
  }

  /** The theme the constructor picks from what the store holds: dark only when `dark` was saved. */
  function Restored(saved: Option<StoredValue>): (t: ThemeName)
    ensures t == Dark <==> saved == Some(Word("dark"))
  {
    if saved == Some(Word("dark")) then Dark else Light
  }

  /** Saving a theme and restoring it gives the same theme back. */
  lemma SavedThemeRestores(t: ThemeName)
    ensures Restored(Some(Word(Name(t)))) == t
  {
    assert Name(Light) != "dark" by {
      assert Name(Light)[0] == 'l';
    }
  }

  /**
   * `classList.remove('light-theme', 'dark-theme')` then `classList.add(...)`:
   * exactly one of the two theme classes, that of `t`, and every other class unchanged.
   */
  function WithThemeClass(classes: set<string>, t: ThemeName): (r: set<string>)
    ensures ClassOf(t) in r && ClassOf(Flip(t)) !in r
    ensures forall c :: c != LightClass && c != DarkClass ==> (c in r <==> c in classes)
  {
    ThemeClassesDiffer();
    classes - {LightClass, DarkClass} + {ClassOf(t)}
  }

  /** Only the latest theme's class matters. */
  lemma LatestThemeClassWins(classes: set<string>, t: ThemeName, u: ThemeName)
    ensures WithThemeClass(WithThemeClass(classes, t), u) == WithThemeClass(classes, u)
  {
    ThemeClassesDiffer();
  }

  /** The `document.body` whose `classList` the service edits. */
  class DocumentBody {
    var classList: set<string>

    constructor (initial: set<string>)
      ensures classList == initial
    {
      classList := initial;
    }
  }

  class ThemeService {
    var currentTheme: ThemeName
    const store: LocalStorage
    const body: DocumentBody

    /** The saved theme and the body's theme class both agree with `currentTheme`. */
    ghost predicate Valid()
      reads this, store, body
    {
      && store.GetItem(ThemeKey) == Some(Word(Name(currentTheme)))
      && ClassOf(currentTheme) in body.classList
      && ClassOf(Flip(currentTheme)) !in body.classList
    }

    /** The constructor restores the saved theme, light unless `dark` was saved, and applies it. */
    constructor (store: LocalStorage, body: DocumentBody)
      modifies store, body
      ensures this.store == store && this.body == body && Valid()
      ensures currentTheme == Restored(old(store.GetItem(ThemeKey)))
      ensures store.items == old(store.items)[ThemeKey := Word(Name(currentTheme))]
      ensures body.classList == WithThemeClass(old(body.classList), currentTheme)
    {
      this.store := store;
      this.body := body;
      currentTheme := Light;
      new;
      var saved := store.GetItem(ThemeKey);
      if saved == Some(Word("dark")) {
        SetTheme(Dark);
      } else {
        SetTheme(Light);
      }
    }

    /** `setTheme(t)`: records `t`, sets the body class and saves `t`. */
    method SetTheme(t: ThemeName)
      modifies this, store, body
      ensures currentTheme == t && Valid()
      ensures store.items == old(store.items)[ThemeKey := Word(Name(t))]
      ensures body.classList == WithThemeClass(old(body.classList), t)
    {
      ThemeClassesDiffer();
      currentTheme := t;
      body.classList := body.classList - {LightClass, DarkClass};
      body.classList := body.classList + {ClassOf(t)};
      store.SetItem(ThemeKey, Word(Name(t)));
    }

    /** `toggleTheme()`: switches to the other theme. */
    method ToggleTheme()
      modifies this, store, body
      ensures currentTheme == Flip(old(currentTheme)) && Valid()
      ensures store.items == old(store.items)[ThemeKey := Word(Name(currentTheme))]
      ensures body.classList == WithThemeClass(old(body.classList), currentTheme)
    {
      SetTheme(if currentTheme == Light then Dark else Light);
    }

    /** `getTheme()`: the current theme, which is the one saved and the one whose class the body carries. */
    function GetTheme(): (t: ThemeName)
      reads this, store, body
      ensures t == currentTheme
      ensures Valid() ==> Restored(store.GetItem(ThemeKey)) == t && ClassOf(t) in body.classList
    {
      SavedThemeRestores(currentTheme);
      currentTheme
    }
  }

  /** Toggling twice restores the theme, the store and the body's classes exactly. */
  method ToggleTwice(service: ThemeService)
    requires service.Valid()
    modifies service, service.store, service.body
    ensures service.GetTheme() == old(service.GetTheme()) && service.Valid()
    ensures service.store.items == old(service.store.items)
    ensures service.body.classList == old(service.body.classList)
  {
    ghost var t := service.currentTheme;
    ghost var classes := service.body.classList;
    service.ToggleTheme();
    service.ToggleTheme();
    ThemeClassesDiffer();
    LatestThemeClassWins(classes, Flip(t), t);
  }
}
