# SaferHTMLTag edit gating, in Dafny

SaferHTMLTag is a MediaWiki extension. When a wiki allows raw HTML
(`$wgRawHtml`), it stops users who are not permitted from saving, or being
offered to edit, wikitext that contains the literal `<html>` tag. Permitted
users are logged-in members of `sysop` or of the group named by
`$wgSaferHTMLTagEditorGroup`.

This project models the extension's class `SaferHTMLTag`:

- `Detector` models `contentHasHTMLTags`: PHP truthiness of the content, then `strpos` for the case-sensitive literal `<html>`.
- `Permissions` models `checkUserPermissions`: the `sysop`/editor-group array, `array_intersect` with the user's groups, and the anonymous-user check.
- `Policy` holds the decision each hook takes as a function of its inputs. It also models the per-title memo of the permission hook, over a single call and over a burst of calls. It proves the gating invariant: a denial needs raw HTML enabled, `<html>` in the content, and a user without permission. For the permission hook that user may be an earlier caller for the same title, because the memo is keyed by title only.
- `Hooks` is the class itself. The static `$_data` draft slot and the static `$resultCache` memo are the two fields of a `SaferHtmlTag` object. There is one method per hook handler. Arguments passed by reference (`&$notices`, `&$result`) are in/out parameters. The `$status` object is changed in place. `EditSession` runs a whole edit: check the `edit` permission, show the form, collect the notices, save. In the host the form and the save are separate requests, and a refused save shows the form again after the filter; the outcomes are the same, because the filter neither reads nor writes the draft slot or the memo.

The host is reduced to plain inputs. A user is `isAnon` plus a list of groups. A title is `exists()`, `isWikitextPage()`, its prefixed DB key and the text of its stored content. The configuration is the truthiness of `$wgRawHtml` and the editor-group string. A message is its message key.

Some broader descriptions of this extension mention more machinery: a whitespace-normalised `{{#tag:html` detector, a second check through the parser with overridden conditional parser functions, a commit-time veto, and skipping command-line runs. The class modelled here has none of these. The model follows the code.

## Model

| member | source | states |
|---|---|---|
| `Detector.StrPos` | SaferHTMLTag.class.php:166 | `strpos` returns the first character index at or after the offset where the needle occurs, or nothing when it occurs nowhere there |
| `Detector.ContentHasHtmlTags` | SaferHTMLTag.class.php:165-167 | true exactly when the content is non-null and contains the substring `<html>`; false for null and for the empty string |
| `Detector.UpperCaseTagNotDetected` | SaferHTMLTag.class.php:166 | the match is case-sensitive: `<HTML>` is not detected, `<html>` is |
| `Detector.DetectionSurvivesSurroundingText` | SaferHTMLTag.class.php:166 | content that is detected stays detected whatever text is put before or after it |
| `Permissions.ArrayIntersect` | SaferHTMLTag.class.php:179 | `array_intersect` keeps exactly the values of the first array that occur in the second (as a set of values; order and keys are not stated) |
| `Permissions.PrivilegedGroups` | SaferHTMLTag.class.php:173-177 | the permitted groups are `sysop` plus the editor group when that setting is truthy (not "" and not "0") |
| `Permissions.CheckUserPermissions` | SaferHTMLTag.class.php:169-180 | false for every anonymous user; for a logged-in user true exactly when they are in `sysop` or in the truthy editor group; `sysop` alone always suffices |
| `Policy.NoticeContent` | SaferHTMLTag.class.php:59-65 | the notice hook inspects the captured draft when there is one; with no draft, the stored text of an existing title; with neither, nothing |
| `Policy.NoticeForDraftMatchesRejection` | SaferHTMLTag.class.php:107-127 | for a captured draft, the edit notice is due exactly when the save filter would reject that draft |
| `Policy.PermissionsStep` | SaferHTMLTag.class.php:129-163 | outside `edit` on an existing wikitext page with raw HTML enabled, the memo is unchanged and the action allowed; otherwise existing entries are never overwritten, only this title's key may be added and only with this call's verdict, and the answer is the memoised entry; a denial implies a false memo entry or an unpermitted user with `<html>` in the stored text |
| `Policy.CacheAfterIsFirstVerdict` | SaferHTMLTag.class.php:145-155 | after any burst of calls, a title's memo entry is its initial entry or else the verdict of the first call that reached the memo for that title, and it exists exactly when one of these does |
| `Policy.AllowedAtIsMemoised` | SaferHTMLTag.class.php:145-162 | each call in a burst is allowed unless it reaches the memo; when it does, its answer is the title's initial entry or the verdict of the title's first call, not a fresh verdict |
| `Policy.FirstVerdictHasWitness` | SaferHTMLTag.class.php:147-154 | a title's first verdict was computed by an earlier call of the burst for that title |
| `Policy.BurstDenialIsJustified` | SaferHTMLTag.class.php:129-163 | in a burst starting with an empty memo, a denied call is an `edit` on an existing wikitext page with raw HTML enabled, and some call so far for that title came from an unpermitted user while the stored text held `<html>` |
| `Policy.MemoSharedAcrossUsers` | SaferHTMLTag.class.php:145-155 | the memo is keyed by title only: after a sysop is allowed on a page holding `<html>`, an anonymous user asking next is allowed too, though asked first they would be denied |
| `Policy.SysopDeniedAfterAnonymous` | SaferHTMLTag.class.php:145-159 | the memo is keyed by title only: after an anonymous user is denied a page holding `<html>`, a sysop asking next is denied too, though asked first they would be allowed |
| `Hooks.SaferHtmlTag.constructor` | SaferHTMLTag.class.php:33 | a request starts with no draft (`$_data = []`, line 33) and an empty memo (`static $resultCache = []`, line 132) |
| `Hooks.SaferHtmlTag.Draft` | SaferHTMLTag.class.php:59-60 | the draft is present exactly when its slot is set, and a stored draft always holds `<html>` |
| `Hooks.SaferHtmlTag.OnEditPageShowEditFormInitial` | SaferHTMLTag.class.php:35-50 | returns true; stores the edit box's text in the draft slot only when raw HTML is enabled and the text holds `<html>`, else changes nothing; keeps the "stored drafts hold `<html>`" invariant; never changes the memo |
| `Hooks.SaferHtmlTag.OnTitleGetEditNotices` | SaferHTMLTag.class.php:52-105 | returns true; appends exactly one notice, or none; appends it exactly when raw HTML is on, the draft (or the stored text of an existing page) holds `<html>`, and the user is not permitted; with a draft and raw HTML on, the notice depends only on the user's permission; changes no state |
| `Hooks.SaferHtmlTag.OnEditFilterMergedContent` | SaferHTMLTag.class.php:107-127 | returns true; adds the `saferhtmltag-denied-edit` error and clears `ok` exactly when raw HTML is on, the content holds `<html>`, and the user is not permitted; otherwise leaves the status as it was |
| `Hooks.SaferHtmlTag.OnGetUserPermissionsErrors` | SaferHTMLTag.class.php:129-163 | new memo and answer are those of `Policy.PermissionsStep`; when allowed, `$result` is untouched; when denied, it returns false with `$result` set to the denial message; outside the gated case, nothing changes; old memo entries are kept |
| `Hooks.EditSession` | SaferHTMLTag.class.php:11-19 | with raw HTML off, the save always succeeds and no warning is shown; in a fresh request, the save succeeds exactly when the permission hook allows `edit` of the title and the filter does not reject the text; a refused save, by either hook, was always warned about; when the text holds `<html>` and raw HTML is on, the warning appears exactly when the save is refused; when the text holds no `<html>`, the warning comes only from the stored page's `<html>` |

## Left out

- Detector.StrPos: strings are modelled as sequences of characters, not PHP byte strings, so the index it returns counts characters, not bytes; whether the tag is found, the only thing the detector reads, is the same for valid UTF-8. Its `requires offset <= |haystack|` excludes the error PHP 8 raises for an offset past the end; the detector only calls it with offset 0.
- SaferHTMLTag.php is the extension-loading entry point (`wfLoadExtension`, `die`). It has no logic.
- Host calls are inputs, not models: `WikiPage::factory(...)->getContent()->getNativeData()`, `Title::exists`, `Title::isWikitextPage`, `Title::getPrefixedDBKey`, `RequestContext::getMain()->getUser()`, `User::isAnon`, `User::getGroups`.
- A missing stored revision, where `getContent()` returns null and PHP fails on the method call, is not modelled: a title's stored text is always a string.
- `wfMessage(...)->parse()` is reduced to the message key. Localisation and rendering are not modelled.
- `StatusValue::error` and `setOK` are modelled only as appending to `errors` and setting `ok`.
- The parameters the handlers ignore (`$context`, `$summary`, `$minoredit`, `$output`, `$oldid`) are dropped or kept unused.
- `$wgRawHtml` is reduced to its truthiness. `$wgSaferHTMLTagEditorGroup` is a string, with "" standing for unset, `null` or `false`.
- The commented-out `AuthManager` re-authentication block (lines 76-97) is dead code and is not modelled.
- Not present in this class, so not modelled: the whitespace-normalised `{{#tag:html` check, the parser-expansion detector with its overridden tag and conditional functions, the commit-time veto, and skipping command-line runs.
- Static state lives for one PHP request. One `SaferHtmlTag` object stands for that lifetime, and `EditSession` starts from a fresh one. Concurrent requests are not modelled.
