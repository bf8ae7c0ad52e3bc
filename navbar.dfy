/**
 * The navigation bar (frontend/src/components/Navbar.tsx): a fixed table
 * of four routes and the test that marks a route's button active for the
 * current location. The desktop buttons and the mobile drawer render the
 * same table with the same test.
 */
module Navbar {
  import opened Wrappers

  datatype NavItem = NavItem(path: string, caption: string)

  const NavItems: seq<NavItem> := [
    NavItem("/filter", "Filter Emails"),
    NavItem("/review", "Review"),
    NavItem("/search", "Search"),
    NavItem("/docs", "Documentation")
  ]

  /** A route is active on its own path and on every path below it, but
      not on a path that merely shares its spelling ("/filtering" is not
      below "/filter"). */
  predicate IsActive(pathname: string, path: string) {
    pathname == path || StartsWith(pathname, path + "/")
  }

  /** How the drawer renders a button: its `variant` and `colorScheme`. */
  datatype ButtonStyle = ButtonStyle(variant: string, colorScheme: string)

  /** The drawer button's style: solid and primary when its route is
      active, ghost and gray otherwise. */
  function MobileStyle(pathname: string, item: NavItem): (s: ButtonStyle)
    ensures s.variant == "solid" <==> IsActive(pathname, item.path)
    ensures s.colorScheme == "primary" <==> IsActive(pathname, item.path)
    ensures s == ButtonStyle("solid", "primary") || s == ButtonStyle("ghost", "gray")
  {
    if IsActive(pathname, item.path) then ButtonStyle("solid", "primary") else ButtonStyle("ghost", "gray")
  }

  /** When two routes are active at once, the longer one lies below the
      shorter one. */
  lemma {:induction false} ActiveRoutesNest(pathname: string, p: string, q: string)
    requires IsActive(pathname, p) && IsActive(pathname, q)
    ensures |p| == |q| ==> p == q
    ensures |p| < |q| ==> StartsWith(q, p + "/")
  {
    if pathname == q && pathname != p {
      assert StartsWith(pathname, p + "/");
    } else if pathname == p && pathname != q {
      assert StartsWith(pathname, q + "/");
      assert |q| < |p|;
    } else if pathname != p && pathname != q {
      var pp := p + "/";
      var qq := q + "/";
      assert pathname[..|pp|] == pp && pathname[..|qq|] == qq;
      if |p| == |q| {
        assert p == pp[..|p|] == pathname[..|p|] == qq[..|q|] == q;
      } else if |p| < |q| {
        assert q[..|pp|] == qq[..|pp|] == pathname[..|pp|] == pp;
      }
    }
  }

  /** A path with no "/" after its first character has no route below it
      except through that first character. */
  predicate Flat(path: string) {
    |path| >= 1 && forall k :: 1 <= k < |path| ==> path[k] != '/'
  }

  /** Two different flat routes are never active together. */
  lemma FlatRoutesExclusive(pathname: string, p: string, q: string)
    requires Flat(p) && Flat(q) && p != q
    ensures !(IsActive(pathname, p) && IsActive(pathname, q))
  {
    assert !StartsWith(q, p + "/") by {
      if |p| + 1 <= |q| { assert q[|p|] != (p + "/")[|p|]; }
    }
    assert !StartsWith(p, q + "/") by {
      if |q| + 1 <= |p| { assert p[|q|] != (q + "/")[|q|]; }
    }
    if IsActive(pathname, p) && IsActive(pathname, q) {
      if |p| <= |q| {
        ActiveRoutesNest(pathname, p, q);
      } else {
        ActiveRoutesNest(pathname, q, p);
      }
      assert false;
    }
  }

  /** Among the four routes no path lies below another, so at most one
      button is active, and the root "/" activates none. */
  lemma AtMostOneActive(pathname: string)
    ensures forall i, j :: 0 <= i < j < |NavItems| ==>
      !(IsActive(pathname, NavItems[i].path) && IsActive(pathname, NavItems[j].path))
    ensures forall i :: 0 <= i < |NavItems| ==> !IsActive("/", NavItems[i].path)
  {
    forall i, j | 0 <= i < j < |NavItems|
      ensures !(IsActive(pathname, NavItems[i].path) && IsActive(pathname, NavItems[j].path))
    {
      FlatRoutesExclusive(pathname, NavItems[i].path, NavItems[j].path);
    }
  }

  /** The drawer agrees with the desktop bar: at most one drawer button
      is highlighted, and on "/" none is. */
  lemma AtMostOneHighlighted(pathname: string)
    ensures forall i, j :: 0 <= i < j < |NavItems| ==>
      !(MobileStyle(pathname, NavItems[i]).variant == "solid" && MobileStyle(pathname, NavItems[j]).variant == "solid")
    ensures forall i :: 0 <= i < |NavItems| ==> MobileStyle("/", NavItems[i]) == ButtonStyle("ghost", "gray")
  {
    AtMostOneActive(pathname);
    AtMostOneActive("/");
  }

  /** A location below a route activates it; one that only shares its
      spelling does not. */
  lemma PrefixIsNotEnough()
    ensures IsActive("/filter/advanced", "/filter")
    ensures !IsActive("/filtering", "/filter")
    ensures !IsActive("/", "/filter")
  {
    assert "/filter/advanced"[..8] == "/filter/";
    assert "/filtering"[..8] != "/filter/" by { assert "/filtering"[7] == 'i'; }
  }
}
