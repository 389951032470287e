/**
 * The side menu (src/components/layout/SideMenu.tsx): three fixed entries, an
 * entry being highlighted when the current path starts with its path.
 */
module SideMenu {

  datatype MenuItem = MenuItem(labelText: string, path: string)

  const MenuItems: seq<MenuItem> := [
    MenuItem("Мои команды", "/dashboard/teams"),
    MenuItem("Мои вопросы", "/dashboard/questions"),
    MenuItem("Приглашения", "/dashboard/invitations")
  ]

  /** `s.startsWith(p)`. */
  predicate StartsWith(s: string, p: string) {
    |p| <= |s| && s[..|p|] == p
  }

  /** Whether the entry is highlighted for the current path. */
  predicate IsSelected(pathname: string, item: MenuItem) {
    StartsWith(pathname, item.path)
  }

  /** `startsWith` is plain prefix matching: the path is the prefix followed by anything. */
  lemma StartsWithIff(s: string, p: string)
    ensures StartsWith(s, p) <==> exists rest :: s == p + rest
  {
    if StartsWith(s, p) {
      assert s == p + s[|p|..];
    }
  }

  /** Two prefixes of one path are prefixes of one another. */
  lemma PrefixesComparable(s: string, p: string, q: string)
    requires StartsWith(s, p) && StartsWith(s, q) && |p| <= |q|
    ensures StartsWith(q, p)
  {
    assert q[..|p|] == s[..|q|][..|p|];
  }

  /** No entry's path is a prefix of another's. */
  lemma PathsPrefixFree()
    ensures forall i, j | 0 <= i < |MenuItems| && 0 <= j < |MenuItems| && i != j :: !StartsWith(MenuItems[j].path, MenuItems[i].path)
  {
    assert MenuItems[0].path[11] == 't' && MenuItems[1].path[11] == 'q' && MenuItems[2].path[11] == 'i';
  }

  /** So at most one entry is highlighted, whatever the path. */
  lemma AtMostOneSelected(pathname: string, i: nat, j: nat)
    requires i < |MenuItems| && j < |MenuItems|
    requires IsSelected(pathname, MenuItems[i]) && IsSelected(pathname, MenuItems[j])
    ensures i == j
  {
    PathsPrefixFree();
    if i != j {
      if |MenuItems[i].path| <= |MenuItems[j].path| {
        PrefixesComparable(pathname, MenuItems[i].path, MenuItems[j].path);
      } else {
        PrefixesComparable(pathname, MenuItems[j].path, MenuItems[i].path);
      }
    }
  }

  /** Nested paths highlight their entry, and so does any path that merely
      continues the entry's text without a '/' in between. */
  lemma TeamsEntrySelection()
    ensures IsSelected("/dashboard/teams", MenuItems[0])
    ensures IsSelected("/dashboard/teams/7", MenuItems[0])
    ensures IsSelected("/dashboard/teamsX", MenuItems[0])
    ensures !IsSelected("/dashboard", MenuItems[0])
  {
    assert "/dashboard/teams/7"[..16] == "/dashboard/teams";
    assert "/dashboard/teamsX"[..16] == "/dashboard/teams";
  }
}
