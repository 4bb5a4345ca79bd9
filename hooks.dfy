/**
 * The hook handlers of the `SaferHTMLTag` class. The class-static `$_data`
 * array and the function-static `$resultCache` array become the two fields
 * of one `SaferHtmlTag` object (one per request); arguments PHP passes by
 * reference (`&$notices`, `&$result`) come in as parameters and go out as
 * results; the `$status` object is changed in place.
 */
module Hooks {
  import opened Wrappers
  import opened Detector
  import opened Permissions
  import opened Policy

  /** The part of MediaWiki's `Status` the save filter touches. */
  class Status {
    var ok: bool
    var errors: seq<Message>

    constructor ()
      ensures ok && errors == []
    {
      ok := true;
      errors := [];
    }
  }

  class SaferHtmlTag {
    /** `self::$_data`: only its draft slot `DraftKey` is ever written. */
    var data: map<string, string>
    /** `$resultCache` of the permission hook: title key to "may edit". */
    var resultCache: map<string, bool>

    /** Only drafts that hold `<html>` are ever stored. */
    ghost predicate Valid()
      reads this
    {
      DraftKey in data ==> ContentHasHtmlTags(Some(data[DraftKey]))
    }

    /** `isset(self::$_data['saferthtmltag-pagecontent'])` and its value. */
    function Draft(): (d: Option<string>)
      reads this
      ensures d.Some? <==> DraftKey in data
      ensures Valid() && d.Some? ==> ContentHasHtmlTags(d)
    {
      if DraftKey in data then Some(data[DraftKey]) else None
    }

    /** The state at the start of a request: no draft, empty memo. */
    constructor ()
      ensures Valid() && data == map[] && resultCache == map[]
    {
      data := map[];
      resultCache := map[];
    }

    /**
     * `onEditPage_showEditForm_initial`: remembers the edit box's text when
     * raw HTML is enabled and the text holds `<html>`; otherwise nothing.
     */
    method OnEditPageShowEditFormInitial(cfg: Config, textbox1: string) returns (r: bool)
      requires Valid()
      modifies this`data
      ensures Valid() && r
      ensures cfg.rawHtml && ContentHasHtmlTags(Some(textbox1)) ==>
                data == old(data)[DraftKey := textbox1] && Draft() == Some(textbox1)
      ensures !(cfg.rawHtml && ContentHasHtmlTags(Some(textbox1))) ==> data == old(data)
      ensures old(Draft()).Some? ==> Draft().Some?
    {
      if !cfg.rawHtml {
        return true;
      }
      if !ContentHasHtmlTags(Some(textbox1)) {
        return true;
      }
      data := data[DraftKey := textbox1];
      return true;
    }

    /**
     * `onTitleGetEditNotices`: appends the "HTML detected" notice when raw
     * HTML is enabled, the draft (or else the stored text of an existing
     * page) holds `<html>`, and the user is not permitted. `oldid` is unused,
     * as in the source.
     */
    method OnTitleGetEditNotices(cfg: Config, user: User, title: Title, oldid: int, notices: seq<Message>)
      returns (r: bool, notices': seq<Message>)
      requires Valid()
      ensures r
      ensures notices' == notices + [HtmlDetectedNotice] || notices' == notices
      ensures notices' != notices <==> NoticeDue(cfg, user, Draft(), title)
      ensures notices' != notices ==> cfg.rawHtml && !CheckUserPermissions(cfg, user)
      ensures cfg.rawHtml && Draft().Some? ==> (notices' != notices <==> !CheckUserPermissions(cfg, user))
      ensures Draft().None? && !title.pageExists ==> notices' == notices
    {
      notices' := notices;
      if !cfg.rawHtml {
        return true, notices';
      }
      var content: string;
      if DraftKey in data {
        content := data[DraftKey];
      } else if title.pageExists {
        content := title.storedText;
      } else {
        return true, notices';
      }
      if !ContentHasHtmlTags(Some(content)) {
        return true, notices';
      }
      if CheckUserPermissions(cfg, user) {
        return true, notices';
      }
      notices' := notices' + [HtmlDetectedNotice];
      return true, notices';
    }

    /**
     * `onEditFilterMergedContent`: a submission holding `<html>` from a user
     * without permission, while raw HTML is enabled, gets the `denied-edit`
     * error and marks `status` as not OK; anything else leaves it alone. The
     * hook always lets processing continue.
     */
    static method OnEditFilterMergedContent(cfg: Config, content: string, status: Status, user: User)
      returns (r: bool)
      modifies status
      ensures r
      ensures EditRejected(cfg, user, content) ==>
                !status.ok && status.errors == old(status.errors) + [DeniedEdit]
      ensures !EditRejected(cfg, user, content) ==>
                status.ok == old(status.ok) && status.errors == old(status.errors)
    {
      if !cfg.rawHtml {
        return true;
      }
      if !ContentHasHtmlTags(Some(content)) {
        return true;
      }
      if CheckUserPermissions(cfg, user) {
        return true;
      }
      status.errors := status.errors + [DeniedEdit];  // $status->error(...)
      status.ok := false;                             // $status->setOk(false)
      return true;
    }

    /**
     * `ongetUserPermissionsErrors`: for `edit` on an existing wikitext page
     * while raw HTML is enabled, computes the title's verdict on its first
     * call only and denies (returning false with the `denied-edit` message
     * in `result`) exactly when the memoised verdict is false.
     */
    method OnGetUserPermissionsErrors(cfg: Config, title: Title, user: User, action: string, result: Option<Message>)
      returns (r: bool, result': Option<Message>)
      modifies this`resultCache
      ensures var step := PermissionsStep(old(resultCache), cfg, title, user, action);
              resultCache == step.cache && r == step.allowed
      ensures r ==> result' == result
      ensures !r ==> result' == Some(DeniedEdit)
      ensures !PermissionGated(cfg, title, action) ==> r && resultCache == old(resultCache)
      ensures forall k :: k in old(resultCache) ==> k in resultCache && resultCache[k] == old(resultCache)[k]
    {
      result' := result;
      if !cfg.rawHtml {
        return true, result';
      }
      if action != EditAction || !title.pageExists {
        return true, result';
      } else if !title.isWikitextPage {
        return true, result';
      }
      var key := title.prefixedDbKey;
      if key !in resultCache {
        if CheckUserPermissions(cfg, user) {
          resultCache := resultCache[key := true];
        } else {
          resultCache := resultCache[key := !ContentHasHtmlTags(Some(title.storedText))];
        }
      }
      if !resultCache[key] {
        result' := Some(DeniedEdit);
        return false, result';
      }
      return true, result';
    }
  }

  /**
   * One edit of `title` by `user` in a fresh request: the `edit` permission
   * is checked, the form is shown with `textbox1`, the edit notices are
   * collected, then `textbox1` is saved through the filter. The save goes
   * through only when both the permission hook and the filter accept it. A
   * refused save was always warned about. In the host the form and the
   * save come in separate requests, and a refused save shows the form again
   * after the filter; the outcomes are the same, because the filter neither
   * reads nor writes the draft slot or the memo.
   */
  method EditSession(cfg: Config, user: User, title: Title, textbox1: string)
    returns (notices: seq<Message>, saved: bool)
    ensures notices == [] || notices == [HtmlDetectedNotice]
    ensures !cfg.rawHtml ==> saved && notices == []
    ensures saved <==> PermissionsStep(map[], cfg, title, user, EditAction).allowed
                       && !EditRejected(cfg, user, textbox1)
    ensures !saved ==> notices == [HtmlDetectedNotice]
    ensures cfg.rawHtml && ContentHasHtmlTags(Some(textbox1)) ==>
              (notices == [HtmlDetectedNotice] <==> !saved)
    ensures !ContentHasHtmlTags(Some(textbox1)) ==>
              (notices == [HtmlDetectedNotice] <==>
                 cfg.rawHtml && title.pageExists && ContentHasHtmlTags(Some(title.storedText))
                 && !CheckUserPermissions(cfg, user))
  {
    var hooks := new SaferHtmlTag();
    var allowed, _ := hooks.OnGetUserPermissionsErrors(cfg, title, user, EditAction, None);
    var _ := hooks.OnEditPageShowEditFormInitial(cfg, textbox1);
    var _, shown := hooks.OnTitleGetEditNotices(cfg, user, title, 0, []);
    var status := new Status();
    var _ := SaferHtmlTag.OnEditFilterMergedContent(cfg, textbox1, status, user);
    notices, saved := shown, allowed && status.ok;
  }
}
