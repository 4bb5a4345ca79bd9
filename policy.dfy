/**
 * The decisions the four SaferHTMLTag hooks take, as functions of their
 * inputs and of the memo the permission hook keeps, with the lemmas that
 * relate them: every denial needs raw HTML enabled, an `<html>` tag in the
 * content and a user without permission, who for the permission hook may be
 * an earlier caller for the same title; the memo is filled once per title.
 */
module Policy {
  import opened Wrappers
  import opened Detector
  import opened Permissions

  /** What the hooks ask of a `Title`: `exists()`, `isWikitextPage()`, `getPrefixedDBKey()` and the page's stored text. */
  datatype Title = Title(pageExists: bool, isWikitextPage: bool, prefixedDbKey: string, storedText: string)

  /** A `wfMessage(...)`, identified by its message key. */
  datatype Message = Message(key: string)

  const DeniedEdit: Message := Message("saferhtmltag-denied-edit")
  const HtmlDetectedNotice: Message := Message("saferhtmltag-html-detected-in-edit-page")

  /** The slot of `$_data` that holds the draft captured when the edit form is shown (spelled as in the source). */
  const DraftKey: string := "saferthtmltag-pagecontent"

  const EditAction: string := "edit"

  /** Whether the save filter rejects `content` submitted by `user`. */
  predicate EditRejected(cfg: Config, user: User, content: string) {
    cfg.rawHtml && ContentHasHtmlTags(Some(content)) && !CheckUserPermissions(cfg, user)
  }

  /** The text the edit-notice hook inspects: the captured draft, else the stored page if the title exists. */
  function NoticeContent(draft: Option<string>, title: Title): (c: Option<string>)
    ensures draft.Some? ==> c == draft
    ensures draft.None? && title.pageExists ==> c == Some(title.storedText)
    ensures draft.None? && !title.pageExists ==> c.None?
  {
    if draft.Some? then draft
    else if title.pageExists then Some(title.storedText)
    else None
  }

  /** Whether the edit-notice hook appends its warning. */
  predicate NoticeDue(cfg: Config, user: User, draft: Option<string>, title: Title) {
    cfg.rawHtml && ContentHasHtmlTags(NoticeContent(draft, title)) && !CheckUserPermissions(cfg, user)
  }

  /** A warning shown for a draft is exactly a rejection of saving that draft. */
  lemma NoticeForDraftMatchesRejection(cfg: Config, user: User, draft: string, title: Title)
    ensures NoticeDue(cfg, user, Some(draft), title) == EditRejected(cfg, user, draft)
  {
  }

  /** The permission hook only looks at `edit` on existing wikitext pages while raw HTML is enabled. */
  predicate PermissionGated(cfg: Config, title: Title, action: string) {
    cfg.rawHtml && action == EditAction && title.pageExists && title.isWikitextPage
  }

  /** The verdict the permission hook memoises for a title it has not seen yet. */
  predicate Verdict(cfg: Config, user: User, title: Title) {
    CheckUserPermissions(cfg, user) || !ContentHasHtmlTags(Some(title.storedText))
  }

  /** The memo after one call of the permission hook, and whether that call allowed the action. */
  datatype PermissionStep = PermissionStep(cache: map<string, bool>, allowed: bool)

  /** One call of the permission hook on the memo `cache`. */
  function PermissionsStep(cache: map<string, bool>, cfg: Config, title: Title, user: User, action: string)
    : (s: PermissionStep)
    ensures !PermissionGated(cfg, title, action) ==> s.cache == cache && s.allowed
    ensures forall k :: k in cache ==> k in s.cache && s.cache[k] == cache[k]
    ensures forall k :: k in s.cache ==> k in cache || k == title.prefixedDbKey
    ensures PermissionGated(cfg, title, action) ==>
              title.prefixedDbKey in s.cache && s.allowed == s.cache[title.prefixedDbKey]
    ensures PermissionGated(cfg, title, action) && title.prefixedDbKey !in cache ==>
              s.cache[title.prefixedDbKey] == Verdict(cfg, user, title)
    ensures !s.allowed ==>
              && PermissionGated(cfg, title, action)
              && ((title.prefixedDbKey in cache && !cache[title.prefixedDbKey])
                  || (!CheckUserPermissions(cfg, user) && ContentHasHtmlTags(Some(title.storedText))))
  {
    if !PermissionGated(cfg, title, action) then PermissionStep(cache, true)
    else
      var key := title.prefixedDbKey;
      var memo := if key in cache then cache else cache[key := Verdict(cfg, user, title)];
      PermissionStep(memo, memo[key])
  }

  /** One call of the permission hook within a burst. */
  datatype PermissionQuery = PermissionQuery(title: Title, user: User, action: string)

  predicate QueryGated(cfg: Config, q: PermissionQuery) {
    PermissionGated(cfg, q.title, q.action)
  }

  /** The memo after the calls `qs`, in order, starting from `cache`. */
  function CacheAfter(cache: map<string, bool>, cfg: Config, qs: seq<PermissionQuery>): map<string, bool>
    decreases |qs|
  {
    if qs == [] then cache
    else
      var q := qs[|qs| - 1];
      PermissionsStep(CacheAfter(cache, cfg, qs[..|qs| - 1]), cfg, q.title, q.user, q.action).cache
  }

  /** Whether the `i`-th call of the burst `qs` allowed its action. */
  predicate AllowedAt(cache: map<string, bool>, cfg: Config, qs: seq<PermissionQuery>, i: nat)
    requires i < |qs|
  {
    PermissionsStep(CacheAfter(cache, cfg, qs[..i]), cfg, qs[i].title, qs[i].user, qs[i].action).allowed
  }

  /** The verdict of the first call in `qs` that reaches the memo for `key`, if any. */
  function FirstVerdict(cfg: Config, qs: seq<PermissionQuery>, key: string): Option<bool>
    decreases |qs|
  {
    if qs == [] then None
    else
      var earlier := FirstVerdict(cfg, qs[..|qs| - 1], key);
      var q := qs[|qs| - 1];
      if earlier.Some? then earlier
      else if QueryGated(cfg, q) && q.title.prefixedDbKey == key then Some(Verdict(cfg, q.user, q.title))
      else None
  }

  /** The memo holds, for each title, the entry it started with or else the verdict of the title's first call. */
  lemma {:induction false} CacheAfterIsFirstVerdict(
    cache: map<string, bool>, cfg: Config, qs: seq<PermissionQuery>, key: string)
    ensures key in CacheAfter(cache, cfg, qs) <==> key in cache || FirstVerdict(cfg, qs, key).Some?
    ensures key in CacheAfter(cache, cfg, qs) ==>
              CacheAfter(cache, cfg, qs)[key] == if key in cache then cache[key] else FirstVerdict(cfg, qs, key).value
    decreases |qs|
  {
    if qs != [] {
      CacheAfterIsFirstVerdict(cache, cfg, qs[..|qs| - 1], key);
    }
  }

  /**
   * The `i`-th call of a burst is allowed unless it reaches the memo, and then
   * its answer is the title's initial entry or the verdict of the title's
   * first call, not its own.
   */
  lemma {:induction false} AllowedAtIsMemoised(cache: map<string, bool>, cfg: Config, qs: seq<PermissionQuery>, i: nat)
    requires i < |qs|
    ensures var key := qs[i].title.prefixedDbKey;
            AllowedAt(cache, cfg, qs, i) ==
              (!QueryGated(cfg, qs[i])
               || (if key in cache then cache[key] else FirstVerdict(cfg, qs[..i + 1], key).value))
  {
    var key := qs[i].title.prefixedDbKey;
    assert qs[..i + 1][..i] == qs[..i];
    assert qs[..i + 1][i] == qs[i];
    CacheAfterIsFirstVerdict(cache, cfg, qs[..i], key);
    if QueryGated(cfg, qs[i]) && key !in cache {
      assert FirstVerdict(cfg, qs[..i + 1], key).Some?;
    }
  }

  /** A first verdict was computed by some call of the burst for that title. */
  lemma {:induction false} FirstVerdictHasWitness(cfg: Config, qs: seq<PermissionQuery>, key: string)
    requires FirstVerdict(cfg, qs, key).Some?
    ensures exists j :: 0 <= j < |qs| && QueryGated(cfg, qs[j]) && qs[j].title.prefixedDbKey == key
                        && Verdict(cfg, qs[j].user, qs[j].title) == FirstVerdict(cfg, qs, key).value
    decreases |qs|
  {
    var prefix := qs[..|qs| - 1];
    if FirstVerdict(cfg, prefix, key).Some? {
      FirstVerdictHasWitness(cfg, prefix, key);
      var j :| 0 <= j < |prefix| && QueryGated(cfg, prefix[j]) && prefix[j].title.prefixedDbKey == key
               && Verdict(cfg, prefix[j].user, prefix[j].title) == FirstVerdict(cfg, prefix, key).value;
      assert qs[j] == prefix[j];
    } else {
      assert QueryGated(cfg, qs[|qs| - 1]);
    }
  }

  /**
   * Gating invariant of the permission hook: in a burst that starts with an
   * empty memo, a denied call concerns `edit` on an existing wikitext page
   * with raw HTML enabled, and some call so far for the same title came from
   * a user without permission while the stored text held `<html>`.
   */
  lemma BurstDenialIsJustified(cfg: Config, qs: seq<PermissionQuery>, i: nat)
    requires i < |qs| && !AllowedAt(map[], cfg, qs, i)
    ensures QueryGated(cfg, qs[i])
    ensures exists j :: 0 <= j <= i && qs[j].title.prefixedDbKey == qs[i].title.prefixedDbKey
                        && !CheckUserPermissions(cfg, qs[j].user)
                        && ContentHasHtmlTags(Some(qs[j].title.storedText))
  {
    var key := qs[i].title.prefixedDbKey;
    AllowedAtIsMemoised(map[], cfg, qs, i);
    FirstVerdictHasWitness(cfg, qs[..i + 1], key);
    var j :| 0 <= j < i + 1 && QueryGated(cfg, qs[..i + 1][j]) && qs[..i + 1][j].title.prefixedDbKey == key
             && Verdict(cfg, qs[..i + 1][j].user, qs[..i + 1][j].title) == FirstVerdict(cfg, qs[..i + 1], key).value;
    assert qs[..i + 1][j] == qs[j];
  }

  /**
   * The memo is keyed by title alone: once a permitted user has been allowed
   * to edit a page holding `<html>`, an anonymous user asking next about the
   * same page is allowed too, although asked first the hook would deny them.
   */
  lemma MemoSharedAcrossUsers(cfg: Config, title: Title, sysop: User, anon: User)
    requires cfg.rawHtml && title.pageExists && title.isWikitextPage
    requires ContentHasHtmlTags(Some(title.storedText))
    requires !sysop.isAnon && SysopGroup in sysop.groups && anon.isAnon
    ensures AllowedAt(map[], cfg, [PermissionQuery(title, sysop, EditAction), PermissionQuery(title, anon, EditAction)], 1)
    ensures !AllowedAt(map[], cfg, [PermissionQuery(title, anon, EditAction)], 0)
  {
  }

  /**
   * The other direction: once an anonymous user has been denied a page
   * holding `<html>`, a sysop asking next about the same page is denied too,
   * although asked first the hook would allow them.
   */
  lemma SysopDeniedAfterAnonymous(cfg: Config, title: Title, sysop: User, anon: User)
    requires cfg.rawHtml && title.pageExists && title.isWikitextPage
    requires ContentHasHtmlTags(Some(title.storedText))
    requires !sysop.isAnon && SysopGroup in sysop.groups && anon.isAnon
    ensures !AllowedAt(map[], cfg, [PermissionQuery(title, anon, EditAction), PermissionQuery(title, sysop, EditAction)], 1)
    ensures AllowedAt(map[], cfg, [PermissionQuery(title, sysop, EditAction)], 0)
  {
    var qs := [PermissionQuery(title, anon, EditAction), PermissionQuery(title, sysop, EditAction)];
    var first := PermissionsStep(map[], cfg, title, anon, EditAction);
    assert qs[..1] == [qs[0]] && [qs[0]][..0] == [];
    assert CacheAfter(map[], cfg, qs[..1]) == first.cache;
    assert !first.cache[title.prefixedDbKey];
  }
}
