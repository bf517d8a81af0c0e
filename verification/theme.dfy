/** The header's light/dark theme: the decision taken when the page loads,
    from the saved preference and the operating system's, and the toggle
    that flips the theme and saves the choice. */
module Theme {
  import opened Js

  /** What the header keeps in step: its `isDark` state, the `theme` entry
      of local storage (None when absent) and whether the document root
      carries the `dark` class */
  datatype State = State(isDark: bool, saved: Option<string>, darkClass: bool)

  /** `savedTheme === 'dark' || (!savedTheme && prefersDark)` */
  function InitialDark(saved: Option<string>, prefersDark: bool): (dark: bool)
    ensures saved == Some("dark") ==> dark
    ensures saved.Some? && saved.value != "" && saved.value != "dark" ==> !dark
    ensures saved.None? || saved == Some("") ==> dark == prefersDark
  {
    (saved.Some? && saved.value == "dark") || (!(saved.Some? && saved.value != "") && prefersDark)
  }

  /** The effect run on mount: the state and the class follow the decision;
      storage is only read */
  function Init(saved: Option<string>, prefersDark: bool): (s: State)
    ensures s.saved == saved
    ensures s.isDark == s.darkClass
    ensures s.isDark <==> saved == Some("dark") || ((saved.None? || saved == Some("")) && prefersDark)
  {
    var dark := InitialDark(saved, prefersDark);
    State(dark, saved, dark)
  }

  /** `toggleTheme`: the state flips, the class follows it, and the new theme
      is saved as 'dark' or 'light' */
  function Toggle(s: State): (t: State)
    ensures t.isDark == !s.isDark
    ensures t.darkClass == t.isDark
    ensures t.saved == Some("dark") <==> t.isDark
    ensures t.saved == Some("light") <==> !t.isDark
  {
    var dark := !s.isDark;
    State(dark, Some(if dark then "dark" else "light"), dark)
  }

  /** The class tracks the state after a load followed by any toggles */
  predicate Consistent(s: State) {
    s.darkClass == s.isDark
  }

  function ToggleTimes(s: State, n: nat): State {
    if n == 0 then s else Toggle(ToggleTimes(s, n - 1))
  }

  /** Toggling twice restores the theme and the class; storage then holds
      the restored theme */
  lemma ToggleTwice(s: State)
    requires Consistent(s)
    ensures Toggle(Toggle(s)).isDark == s.isDark
    ensures Consistent(Toggle(Toggle(s)))
    ensures Toggle(Toggle(s)).saved == Some(if s.isDark then "dark" else "light")
  {
  }

  /** After a load and any number of toggles the class matches the state,
      and the state after n toggles is the initial one flipped n times */
  lemma {:induction false} ToggleTimesConsistent(saved: Option<string>, prefersDark: bool, n: nat)
    ensures Consistent(ToggleTimes(Init(saved, prefersDark), n))
    ensures ToggleTimes(Init(saved, prefersDark), n).isDark
      == (InitialDark(saved, prefersDark) != (n % 2 == 1))
  {
    if n > 0 {
      ToggleTimesConsistent(saved, prefersDark, n - 1);
    }
  }

  /** Reloading after a toggle reproduces the toggled theme whatever the
      operating system prefers */
  lemma ReloadKeepsToggle(s: State, prefersDark: bool)
    ensures Init(Toggle(s).saved, prefersDark) == Toggle(s)
  {
  }
}
