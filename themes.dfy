/**
 * The theme logic of `MainWindow` in gui/main_window.py: the list of installed
 * GTK themes built by `get_available_gtk_themes`, the conversion of the legacy
 * names "light", "dark" and "system", and the dark-theme test of `apply_theme`.
 * The theme directories are given by their listings.
 */
module Themes {
  import opened Wrappers
  import opened Strings
  import opened Ordering

  /** An entry of a theme directory and whether it has a `gtk-3.0` or `gtk-4.0` subdirectory. */
  datatype ThemeEntry = ThemeEntry(name: string, hasGtk3: bool, hasGtk4: bool)

  /** A theme directory: absent (`os.path.exists` is false), present but `os.listdir` raises, or listed. */
  datatype ThemeDir = Absent | Unlistable | Listed(entries: seq<ThemeEntry>)

  /** The list used when the scan raises. */
  const FallbackThemes: seq<string> := ["Adwaita", "Adwaita-dark", "HighContrast"]

  predicate IsGtkTheme(e: ThemeEntry)
  {
    e.hasGtk3 || e.hasGtk4
  }

  predicate OffersIn(entries: seq<ThemeEntry>, name: string)
  {
    exists j | 0 <= j < |entries| :: entries[j].name == name && IsGtkTheme(entries[j])
  }

  predicate Offers(d: ThemeDir, name: string)
  {
    d.Listed? && OffersIn(d.entries, name)
  }

  /** Some directory holds a valid GTK theme called `name`. */
  predicate AnyOffers(dirs: seq<ThemeDir>, name: string)
  {
    exists i | 0 <= i < |dirs| :: Offers(dirs[i], name)
  }

  /** Some directory exists but cannot be listed, which makes the scan raise. */
  predicate ScanRaises(dirs: seq<ThemeDir>)
  {
    exists i | 0 <= i < |dirs| :: dirs[i].Unlistable?
  }

  lemma FallbackSortedDistinct()
    ensures Sorted(FallbackThemes) && NoDuplicates(FallbackThemes)
  {
    FallbackSorted();
    FallbackDistinct();
  }

  lemma FallbackSorted()
    ensures Sorted(FallbackThemes)
  {
    var f := FallbackThemes;
    FallbackOrder();
    LexLeTrans(f[0], f[1], f[2]);
  }

  lemma FallbackDistinct()
    ensures NoDuplicates(FallbackThemes)
  {
    var f := FallbackThemes;
    assert |f[0]| != |f[1]|;
    assert f[0][0] != f[2][0] && f[1][0] != f[2][0];
  }

  /** "Adwaita" is a prefix of "Adwaita-dark", and 'A' comes before 'H'. */
  lemma FallbackOrder()
    ensures LexLe("Adwaita", "Adwaita-dark") && LexLe("Adwaita-dark", "HighContrast")
  {
    var a, d := "Adwaita", "Adwaita-dark";
    assert d[..|a|] == a;
    PrefixLe(a, d);
    assert "Adwaita-dark"[0] < "HighContrast"[0];
  }

  /**
   * `get_available_gtk_themes()`: every valid theme name of the listed
   * directories, once each, in ascending order; the fallback list when a
   * directory cannot be listed.
   */
  method AvailableThemes(dirs: seq<ThemeDir>) returns (themes: seq<string>)
    ensures Sorted(themes) && NoDuplicates(themes)
    ensures ScanRaises(dirs) ==> themes == FallbackThemes
    ensures !ScanRaises(dirs) ==> forall name :: name in themes <==> AnyOffers(dirs, name)
  {
    FallbackSortedDistinct();
    themes := [];
    var i := 0;
    while i < |dirs|
      invariant 0 <= i <= |dirs|
      invariant NoDuplicates(themes)
      invariant forall k :: 0 <= k < i ==> !dirs[k].Unlistable?
      invariant forall name :: name in themes <==> AnyOffers(dirs[..i], name)
    {
      match dirs[i] {
        case Absent =>
        case Unlistable =>
          themes := FallbackThemes;
          return;
        case Listed(entries) =>
          var j := 0;
          while j < |entries|
            invariant 0 <= j <= |entries|
            invariant NoDuplicates(themes)
            invariant forall name :: name in themes <==> AnyOffers(dirs[..i], name) || OffersIn(entries[..j], name)
          {
            var e := entries[j];
            if (e.hasGtk3 || e.hasGtk4) && e.name !in themes {
              themes := themes + [e.name];
            }
            assert forall name :: OffersIn(entries[..j + 1], name) <==>
                     OffersIn(entries[..j], name) || (entries[j].name == name && IsGtkTheme(entries[j])) by {
              forall name ensures OffersIn(entries[..j + 1], name) <==>
                  OffersIn(entries[..j], name) || (entries[j].name == name && IsGtkTheme(entries[j])) {
                if OffersIn(entries[..j + 1], name) {
                  var m :| 0 <= m < j + 1 && entries[..j + 1][m].name == name && IsGtkTheme(entries[..j + 1][m]);
                  if m < j { assert entries[..j][m] == entries[m]; }
                }
                if OffersIn(entries[..j], name) {
                  var m :| 0 <= m < j && entries[..j][m].name == name && IsGtkTheme(entries[..j][m]);
                  assert entries[..j + 1][m] == entries[m];
                }
                if entries[j].name == name && IsGtkTheme(entries[j]) {
                  assert entries[..j + 1][j] == entries[j];
                }
              }
            }
            j := j + 1;
          }
          assert entries[..j] == entries;
      }
      AnyOffersExtend(dirs, i);
      i := i + 1;
    }
    assert dirs[..i] == dirs;
    assert !ScanRaises(dirs);
    SortKeepsMembers(themes);
    themes := SortStrings(themes);
  }

  lemma AnyOffersExtend(dirs: seq<ThemeDir>, i: nat)
    requires i < |dirs|
    ensures forall name :: AnyOffers(dirs[..i + 1], name) <==> AnyOffers(dirs[..i], name) || Offers(dirs[i], name)
  {
    forall name ensures AnyOffers(dirs[..i + 1], name) <==> AnyOffers(dirs[..i], name) || Offers(dirs[i], name) {
      if AnyOffers(dirs[..i + 1], name) {
        var k :| 0 <= k < i + 1 && Offers(dirs[..i + 1][k], name);
        if k < i { assert dirs[..i][k] == dirs[k]; }
      }
      if AnyOffers(dirs[..i], name) {
        var k :| 0 <= k < i && Offers(dirs[..i][k], name);
        assert dirs[..i + 1][k] == dirs[k];
      }
      if Offers(dirs[i], name) {
        assert dirs[..i + 1][i] == dirs[i];
      }
    }
  }

  /**
   * `"dark" in name.lower() or "Dark" in name`, the test of `apply_theme`. Its
   * second half adds nothing: a name is dark iff its lower-case form contains "dark".
   */
  predicate IsDarkTheme(name: string): (dark: bool)
    ensures dark <==> Contains(Lower(name), "dark")
  {
    UpperDarkIsLowerDark(name);
    Contains(Lower(name), "dark") || Contains(name, "Dark")
  }

  /** A name containing "Dark" contains "dark" once lower-cased. */
  lemma UpperDarkIsLowerDark(name: string)
    ensures Contains(name, "Dark") ==> Contains(Lower(name), "dark")
  {
    if Contains(name, "Dark") {
      ContainsLower(name, "Dark");
      assert Lower("Dark") == "dark";
    }
  }

  /** `settings.get_property("gtk-theme-name") or "Adwaita"`. */
  function SystemThemeName(property: Option<string>): (name: string)
    ensures name != ""
    ensures property.Some? && property.value != "" ==> name == property.value
  {
    match property
    case Some(n) => if n != "" then n else "Adwaita"
    case None => "Adwaita"
  }

  /** A theme the "dark" conversion may pick: it contains the system theme's name and is dark. */
  predicate IsDarkVariant(theme: string, system: string)
  {
    Contains(theme, system) && IsDarkTheme(theme)
  }

  /** `system_theme.replace("dark", "").replace("Dark", "").strip()`. */
  function LightVariant(system: string): string
  {
    Strip(Replace(Replace(system, "dark", ""), "Dark", ""))
  }

  /**
   * The conversion of a saved legacy theme name: "system" becomes the system
   * theme; "light" under a dark system theme becomes its light variant when that
   * is installed; "dark" under a light system theme becomes the first installed
   * dark variant, else "Adwaita-dark" if installed, else the system theme.
   * Every other name is kept.
   */
  method MigrateTheme(saved: string, system: string, available: seq<string>) returns (theme: string)
    ensures saved != "light" && saved != "dark" && saved != "system" ==> theme == saved
    ensures saved == "system" ==> theme == system
    ensures saved == "light" ==>
              theme == if Contains(Lower(system), "dark") && LightVariant(system) != "" && LightVariant(system) in available
                       then LightVariant(system) else "light"
    ensures saved == "dark" && Contains(Lower(system), "dark") ==> theme == "dark"
    ensures saved == "dark" && !Contains(Lower(system), "dark") ==>
              (exists k :: 0 <= k < |available| && available[k] == theme && IsDarkVariant(theme, system)
                           && forall m :: 0 <= m < k ==> !IsDarkVariant(available[m], system))
              || ((forall k :: 0 <= k < |available| ==> !IsDarkVariant(available[k], system))
                  && theme == if "Adwaita-dark" in available then "Adwaita-dark" else system)
  {
    theme := saved;
    if saved == "light" || saved == "dark" || saved == "system" {
      if saved == "light" && Contains(Lower(system), "dark") {
        var light := LightVariant(system);
        if light != "" && light in available {
          theme := light;
        }
      } else if saved == "dark" && !Contains(Lower(system), "dark") {
        var i := 0;
        while i < |available|
          invariant 0 <= i <= |available|
          invariant forall m :: 0 <= m < i ==> !IsDarkVariant(available[m], system)
        {
          var t := available[i];
          if Contains(t, system) && (Contains(Lower(t), "dark") || Contains(t, "Dark")) {
            theme := t;
            return;
          }
          i := i + 1;
        }
        theme := if "Adwaita-dark" in available then "Adwaita-dark" else system;
      } else if saved == "system" {
        theme := system;
      }
    }
  }

  /**
   * The light variant is found by removing only "dark" and "Dark": a system
   * theme that is dark in another spelling (such as "Adwaita-DARK") is its own
   * light variant, so converting "light" can select that dark theme.
   */
  lemma LightVariantOfOtherSpelling(system: string)
    requires !Contains(system, "dark") && !Contains(system, "Dark")
    ensures LightVariant(system) == Strip(system)
  {
    ReplaceAbsent(system, "dark", "");
    ReplaceAbsent(system, "Dark", "");
  }
}
