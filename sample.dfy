/**
  The older ASP.NET Web API controller (forgesample/Controllers/WebhookController.cs):
  each action splits a folder href inline, returns early unless the
  segment before the last is "folders", and then makes one call to its
  own `DMWebhook`. That client is not part of this model; its two
  operations are recorded as `SampleCall`s, and the hooks a listing
  returns come from an oracle. Nothing here updates state, so the
  actions are functions returning their outcome and their calls.
 */
module Sample {
  import opened CSharp
  import opened Webhook
  import Controller

  /** A call the sample controller makes outside itself. */
  datatype SampleCall =
    | SessionRead                                                                   // Credentials.FromSessionAsync
    | ListHooks(accessToken: string, callbackUrl: Option<string>, eventType: Event, folderId: string)    // DMWebhook.Hooks
    | RegisterHook(accessToken: string, callbackUrl: Option<string>, eventType: Event, folderId: string) // DMWebhook.CreateHook

  /** `CallbackUrl`: the `FORGE_WEBHOOK_CALLBACK_URL` setting as configured, null when missing, with no route appended. */
  function CallbackUrl(settings: map<string, string>): (url: Option<string>)
    ensures url.Some? <==> "FORGE_WEBHOOK_CALLBACK_URL" in settings
    ensures url.Some? ==> url.value == settings["FORGE_WEBHOOK_CALLBACK_URL"]
  {
    Controller.AppSetting(settings, "FORGE_WEBHOOK_CALLBACK_URL")
  }

  /**
    The inline parsing both actions open with: split on '/', index the
    segment before the last, then the last; `None` when the former is not
    "folders". There is no check that the folder id is non-blank.
   */
  function FolderOfHref(href: Option<string>): (r: Outcome<Option<string>>)
    ensures href.None? ==> r == Throws(NullReference)
    ensures href.Some? ==> (r.Throws? <==> '/' !in href.value)
    ensures href.Some? && r.Throws? ==> r.error == IndexOutOfRange
  {
    match href
    case None => Throws(NullReference)
    case Some(h) =>
      var idParams := Split(h, '/');
      match ElementAt(idParams, |idParams| - 2)
      case Throws(e) => Throws(e)
      case Returns(resource) =>
        match ElementAt(idParams, |idParams| - 1)
        case Throws(e) => Throws(e)
        case Returns(folderId) => if resource != "folders" then Returns(None) else Returns(Some(folderId))
  }

  /**
    The inline parsing and `HookInputData.ExtractFolderIdFromHref` fail on
    the same hrefs with the same exception and find the same folder id;
    where the inline code gives up, the extractor answers "".
   */
  lemma FolderOfHrefAgrees(href: Option<string>)
    ensures var (r, id) := (FolderOfHref(href), Controller.ExtractFolderIdFromHref(href));
            && (r.Throws? <==> id.Throws?)
            && (r.Throws? ==> r.error == id.error)
            && (r.Returns? && r.value.Some? ==> id == Returns(r.value.value))
            && (r == Returns(None) ==> id == Returns(""))
  {
  }

  /** Any href ending in "folders/" and an id, the empty id included, is accepted with that id. */
  lemma FolderOfFolderHref(prefix: string, id: string)
    requires Controller.SegmentBoundary(prefix) && '/' !in id
    ensures FolderOfHref(Some(prefix + "folders/" + id)) == Returns(Some(id))
  {
    var h := prefix + "folders/" + id;
    assert h == prefix + "folders" + "/" + id;
    var front := Controller.PrefixSegments(prefix);
    assert Split(h, '/') == front + ["folders", id] by {
      Controller.SplitOfResourceHref(prefix, "folders", id);
      assert front + ["folders", id] + [] == front + ["folders", id];
    }
    FolderOfSegments(h, front, "folders", id);
  }

  /** A href read off its last two segments: the id when the first is "folders", else no folder. */
  lemma FolderOfSegments(h: string, front: seq<string>, kind: string, id: string)
    requires Split(h, '/') == front + [kind, id]
    ensures FolderOfHref(Some(h)) == Returns(if kind == "folders" then Some(id) else None)
  {
    var parts := Split(h, '/');
    assert parts[|parts| - 2] == kind;
    assert parts[|parts| - 1] == id;
  }

  /** On a href with a '/', the folder id is read off the last two segments. */
  lemma FolderOfHrefValue(h: string)
    requires '/' in h
    ensures var parts := Split(h, '/');
            && |parts| >= 2
            && FolderOfHref(Some(h)) == Returns(if parts[|parts| - 2] == "folders" then Some(parts[|parts| - 1]) else None)
  {
    var parts := Split(h, '/');
    var n := |parts|;
    assert n >= 2;
    var front, kind, id := parts[..n - 2], parts[n - 2], parts[n - 1];
    assert parts == front + [kind, id] by { Controller.LastTwo(parts); }
    FolderOfSegments(h, front, kind, id);
  }

  /** A folder id, the empty one included, is the last segment, and "folders" the one before it. */
  lemma FolderOfHrefSegments(h: string, v: string)
    requires FolderOfHref(Some(h)) == Returns(Some(v))
    ensures var parts := Split(h, '/');
            |parts| >= 2 && parts[|parts| - 2] == "folders" && parts[|parts| - 1] == v
  {
    assert '/' in h;
    FolderOfHrefValue(h);
  }

  /**
    A folder id, the empty one included, comes only from a href that ends
    in "folders/<id>" after a segment-ending prefix.
   */
  lemma FolderOfHrefSound(h: string, v: string)
    requires FolderOfHref(Some(h)) == Returns(Some(v))
    ensures |h| >= 8 + |v|
    ensures var prefix := h[..|h| - |v| - 8];
            h == prefix + "folders/" + v && Controller.SegmentBoundary(prefix) && '/' !in v
  {
    FolderOfHrefSegments(h, v);
    Controller.TrailingSlashed(h, "folders", "folders/", v);
  }

  /** A href with a '/' whose second segment from the end is not "folders" names no folder. */
  lemma FolderOfHrefRejects(h: string)
    requires '/' in h
    requires var parts := Split(h, '/'); parts[|parts| - 2] != "folders"
    ensures FolderOfHref(Some(h)) == Returns(None)
  {
    FolderOfHrefValue(h);
  }

  /**
    `GetHooks`: null when the href does not name a folder, before any
    call; otherwise the session is read and its token used to list the
    `VersionAdded` hooks of the folder. A missing session throws when its
    token is read.
   */
  function GetHooks(href: Option<string>, session: Option<Credentials>, settings: map<string, string>,
                    hooksOf: SampleCall -> seq<Hook>): (run: (Outcome<Option<seq<Hook>>>, seq<SampleCall>))
    ensures var (r, calls) := run;
            && (FolderOfHref(href).Throws? ==> r == Throws(FolderOfHref(href).error) && calls == [])
            && (FolderOfHref(href) == Returns(None) ==> r == Returns(None) && calls == [])
            && (FolderOfHref(href).Returns? && FolderOfHref(href).value.Some? ==>
                  && |calls| >= 1 && calls[0] == SessionRead
                  && (session.None? ==> r == Throws(NullReference) && calls == [SessionRead])
                  && (session.Some? ==>
                        var call := ListHooks(session.value.tokenInternal, CallbackUrl(settings), VersionAdded,
                                              FolderOfHref(href).value.value);
                        r == Returns(Some(hooksOf(call))) && calls == [SessionRead, call]))
  {
    match FolderOfHref(href)
    case Throws(e) => (Throws(e), [])
    case Returns(None) => (Returns(None), [])
    case Returns(Some(folderId)) =>
      match session
      case None => (Throws(NullReference), [SessionRead])
      case Some(credentials) =>
        var call := ListHooks(credentials.tokenInternal, CallbackUrl(settings), VersionAdded, folderId);
        (Returns(Some(hooksOf(call))), [SessionRead, call])
  }

  /**
    `CreateHook`: nothing happens when the href does not name a folder;
    otherwise the session is read and one `VersionAdded` hook registered on
    the folder. The action returns no value, so only its outcome and its
    calls are observable.
   */
  function CreateHook(href: Option<string>, session: Option<Credentials>, settings: map<string, string>)
    : (run: (Outcome<()>, seq<SampleCall>))
    ensures var (r, calls) := run;
            && (FolderOfHref(href).Throws? ==> r == Throws(FolderOfHref(href).error) && calls == [])
            && (FolderOfHref(href) == Returns(None) ==> r == Returns(()) && calls == [])
            && (FolderOfHref(href).Returns? && FolderOfHref(href).value.Some? ==>
                  && (session.None? ==> r == Throws(NullReference) && calls == [SessionRead])
                  && (session.Some? ==>
                        && r == Returns(())
                        && calls == [SessionRead, RegisterHook(session.value.tokenInternal, CallbackUrl(settings),
                                                               VersionAdded, FolderOfHref(href).value.value)]))
  {
    match FolderOfHref(href)
    case Throws(e) => (Throws(e), [])
    case Returns(None) => (Returns(()), [])
    case Returns(Some(folderId)) =>
      match session
      case None => (Throws(NullReference), [SessionRead])
      case Some(credentials) =>
        (Returns(()), [SessionRead, RegisterHook(credentials.tokenInternal, CallbackUrl(settings), VersionAdded, folderId)])
  }

  /** At most one hook is registered per request, and only on the folder the href names. */
  lemma CreateHookRegistersAtMostOnce(href: Option<string>, session: Option<Credentials>, settings: map<string, string>)
    ensures var calls := CreateHook(href, session, settings).1;
            && |calls| <= 2
            && forall i :: 0 <= i < |calls| && calls[i].RegisterHook? ==>
                 i == 1 && FolderOfHref(href) == Returns(Some(calls[i].folderId)) && calls[i].eventType == VersionAdded
  {
  }

  /**
    An href ending in "folders/" is accepted by the sample with an empty
    folder id, which is sent on to the listing; the newer controller's
    extractor yields the same blank id, which its guard rejects.
   */
  lemma EmptyFolderIdIsSent(prefix: string, credentials: Credentials, settings: map<string, string>,
                            hooksOf: SampleCall -> seq<Hook>)
    requires Controller.SegmentBoundary(prefix)
    ensures var call := ListHooks(credentials.tokenInternal, CallbackUrl(settings), VersionAdded, "");
            GetHooks(Some(prefix + "folders/"), Some(credentials), settings, hooksOf).1 == [SessionRead, call]
    ensures Controller.ExtractFolderIdFromHref(Some(prefix + "folders/")) == Returns("")
    ensures IsNullOrWhiteSpace("")
  {
    FolderOfFolderHref(prefix, "");
    assert prefix + "folders/" + "" == prefix + "folders/";
    FolderOfHrefAgrees(Some(prefix + "folders/"));
  }

  /** `WebhookCallback`: the body is ignored and nothing is called. */
  function WebhookCallback(body: Controller.CallbackBody): (calls: seq<SampleCall>)
    ensures calls == []
  {
    []
  }
}
