/** The sidebar's navigation links and how the current page's link is
    highlighted. The pathname is a parameter. */
module Sidebar {
  import opened Text

  /** `isActive(path)`: the root link only on the root page, any other
      link on every page whose path starts with the link's. */
  predicate IsActive(pathname: string, path: string) {
    (path == "/" && pathname == "/") || (path != "/" && StartsWith(pathname, path))
  }

  const BaseClass := "p-2 rounded-lg transition-colors duration-200"
  const ActiveClass := BaseClass + " bg-white text-[#7a40f2]"
  const InactiveClass := BaseClass + " text-white hover:bg-purple-500"

  /** `getLinkClass(path)`. */
  function LinkClass(pathname: string, path: string): (r: string)
    ensures r == ActiveClass <==> IsActive(pathname, path)
    ensures r == InactiveClass <==> !IsActive(pathname, path)
    ensures StartsWith(r, BaseClass)
  {
    if IsActive(pathname, path) then ActiveClass else InactiveClass
  }

  /** The prefix test ignores path segments: the device link is lit on a
      "/devices" page as well. */
  lemma DeviceLinkLitOnDevices()
    ensures IsActive("/devices", "/device")
    ensures IsActive("/device/settings", "/device")
    ensures !IsActive("/home", "/")
  {
    assert "/devices"[..7] == "/device";
    assert "/device/settings"[..7] == "/device";
  }

  /** The paths the sidebar links to, top to bottom. */
  const Links: seq<string> := ["/home", "/device", "/humidity", "/temperature",
    "/light_intensity", "/fire-detection", "/sensors", "/logging", "/about"]

  lemma PrefixesOfOneString(s: string, a: string, b: string)
    requires StartsWith(s, a) && StartsWith(s, b) && |a| <= |b|
    ensures StartsWith(b, a)
  {
    assert b[..|a|] == s[..|b|][..|a|];
  }

  /** No link's path starts with another's. */
  predicate PrefixFree(paths: seq<string>) {
    forall i, j :: 0 <= i < |paths| && 0 <= j < |paths| && i != j ==> !StartsWith(paths[j], paths[i])
  }

  /** For link paths of which none extends another, at most one link is lit
      on any page. */
  lemma {:induction false} AtMostOneActive(paths: seq<string>, pathname: string, i: int, j: int)
    requires PrefixFree(paths) && forall k :: 0 <= k < |paths| ==> paths[k] != "/"
    requires 0 <= i < |paths| && 0 <= j < |paths|
    requires IsActive(pathname, paths[i]) && IsActive(pathname, paths[j])
    ensures i == j
  {
    if i != j {
      if |paths[i]| <= |paths[j]| {
        PrefixesOfOneString(pathname, paths[i], paths[j]);
      } else {
        PrefixesOfOneString(pathname, paths[j], paths[i]);
      }
    }
  }

  /** The sidebar's own links are prefix-free, so it never lights two. */
  lemma SidebarLinksPrefixFree()
    ensures PrefixFree(Links)
    ensures forall k :: 0 <= k < |Links| ==> Links[k] != "/"
  {
    forall i, j | 0 <= i < |Links| && 0 <= j < |Links| && i != j
      ensures !StartsWith(Links[j], Links[i])
    {
      assert Links[i][1] != Links[j][1] || Links[i][2] != Links[j][2] || Links[i] == "/device" || Links[j] == "/device";
    }
  }
}
