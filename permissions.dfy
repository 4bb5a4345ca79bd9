/**
 * The permission oracle of SaferHTMLTag: `checkUserPermissions`, with the
 * two configuration globals it and the hooks read passed explicitly.
 */
module Permissions {
  import opened Detector

  /** The acting user, as the host reports it: `isAnon()` and `getGroups()`. */
  datatype User = User(isAnon: bool, groups: seq<string>)

  /**
   * `$wgRawHtml` (reduced to its truthiness) and `$wgSaferHTMLTagEditorGroup`;
   * an unset, `null` or `false` editor group is the empty string.
   */
  datatype Config = Config(rawHtml: bool, editorGroup: string)

  /** Members of this group may always work with HTML tags. */
  const SysopGroup: string := "sysop"

  /**
   * PHP's `array_intersect($a, $b)` on string values: the elements of `a`
   * that also occur in `b`.
   */
  function ArrayIntersect(a: seq<string>, b: seq<string>): (r: seq<string>)
    ensures forall x :: x in r <==> x in a && x in b
    ensures |r| <= |a|
  {
    if a == [] then []
    else (if a[0] in b then [a[0]] else []) + ArrayIntersect(a[1..], b)
  }

  /** The groups array built by `checkUserPermissions`: `sysop`, then the editor group if it is truthy. */
  function PrivilegedGroups(cfg: Config): (r: seq<string>)
    ensures forall g :: g in r <==> g == SysopGroup || (Truthy(cfg.editorGroup) && g == cfg.editorGroup)
  {
    [SysopGroup] + (if Truthy(cfg.editorGroup) then [cfg.editorGroup] else [])
  }

  /**
   * `checkUserPermissions($user)`: a logged-in user who belongs to `sysop`
   * or to the configured editor group.
   */
  function CheckUserPermissions(cfg: Config, user: User): (r: bool)
    ensures user.isAnon ==> !r
    ensures !user.isAnon && SysopGroup in user.groups ==> r
    ensures r <==> !user.isAnon && (SysopGroup in user.groups
                                    || (Truthy(cfg.editorGroup) && cfg.editorGroup in user.groups))
  {
    var common := ArrayIntersect(PrivilegedGroups(cfg), user.groups);
    assert common != [] ==> common[0] in common;
    !user.isAnon && |common| != 0
  }
}
