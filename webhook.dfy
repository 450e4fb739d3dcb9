/**
  The client of the Forge webhooks API (webhook/Controllers/Webhook.cs):
  the `Event` enumeration and its wire name, the REST requests the client
  builds, and the `DMWebhook` class that lists, creates and deletes hooks.

  The Forge servers are an oracle (`ForgeApi`): total functions from a
  request to the region, hook list or status code they answer with. Every
  call a method makes is returned, in order, as a trace of `Call`s.
 */
module Webhook {
  import opened CSharp

  /** The document-management events a hook can be registered for. */
  datatype Event = VersionAdded | VersionModified | VersionDeleted | VersionMoved | VersionCoped

  /** `Enum.GetName(typeof(Event), e)`: the identifier as declared, misspelling included. */
  function EventName(e: Event): string
  {
    match e
    case VersionAdded => "VersionAdded"
    case VersionModified => "VersionModified"
    case VersionDeleted => "VersionDeleted"
    case VersionMoved => "VersionMoved"
    case VersionCoped => "VersionCoped"
  }

  /**
    `Regex.Split(s, "(?<!^)(?=[A-Z])")`: cut `s` just before every upper-case
    ASCII letter that is not its first character. Each word after the first
    starts with its upper-case letter, no word has one further in, and the
    words concatenate back to `s`.
   */
  function SplitBeforeUpper(s: string): (words: seq<string>)
    ensures |words| >= 1
    ensures forall i :: 1 <= i < |words| ==> |words[i]| >= 1 && IsUpper(words[i][0])
    ensures forall i :: 0 <= i < |words| ==> NoInnerUpper(words[i])
  {
    if |s| <= 1 then [s]
    else
      var c := s[|s| - 1];
      var words := SplitBeforeUpper(s[..|s| - 1]);
      if IsUpper(c) then
        CutsAppendWord(words, [c]);
        words + [[c]]
      else
        CutsExtendLast(words, c);
        words[..|words| - 1] + [words[|words| - 1] + [c]]
  }

  /** Adding a word that starts with its only capital keeps the shape of a cut. */
  lemma CutsAppendWord(words: seq<string>, w: string)
    requires forall i :: 1 <= i < |words| ==> |words[i]| >= 1 && IsUpper(words[i][0])
    requires forall i :: 0 <= i < |words| ==> NoInnerUpper(words[i])
    requires |w| >= 1 && IsUpper(w[0]) && NoInnerUpper(w)
    ensures forall i :: 1 <= i < |words + [w]| ==> |(words + [w])[i]| >= 1 && IsUpper((words + [w])[i][0])
    ensures forall i :: 0 <= i < |words + [w]| ==> NoInnerUpper((words + [w])[i])
  {
    forall i | 0 <= i < |words + [w]|
      ensures (words + [w])[i] == if i < |words| then words[i] else w
    {
    }
  }

  /** Extending the last word with a character that is not a capital keeps the shape of a cut. */
  lemma CutsExtendLast(words: seq<string>, c: char)
    requires |words| >= 1 && !IsUpper(c)
    requires forall i :: 1 <= i < |words| ==> |words[i]| >= 1 && IsUpper(words[i][0])
    requires forall i :: 0 <= i < |words| ==> NoInnerUpper(words[i])
    ensures var cut := words[..|words| - 1] + [words[|words| - 1] + [c]];
            && |cut| == |words|
            && (forall i :: 1 <= i < |cut| ==> |cut[i]| >= 1 && IsUpper(cut[i][0]))
            && (forall i :: 0 <= i < |cut| ==> NoInnerUpper(cut[i]))
  {
    var k := |words| - 1;
    var last := words[k];
    var cut := words[..k] + [last + [c]];
    assert NoInnerUpper(last + [c]) by {
      assert forall j :: 1 <= j < |last| ==> (last + [c])[j] == last[j];
    }
    assert forall i :: 0 <= i < k ==> cut[i] == words[i];
    assert cut[k] == last + [c];
  }

  /** Extending the last piece of a join extends the joined string. */
  lemma JoinExtendLast(words: seq<string>, c: char, sep: string)
    requires |words| >= 1
    ensures Join(words[..|words| - 1] + [words[|words| - 1] + [c]], sep) == Join(words, sep) + [c]
  {
    var k := |words| - 1;
    var last := words[k];
    if k == 0 {
      assert words[..k] + [last + [c]] == [last + [c]];
    } else {
      assert words == words[..k] + [last];
      JoinSnoc(words[..k], last, sep);
      JoinSnoc(words[..k], last + [c], sep);
    }
  }

  /** The words concatenate back to the identifier: the split loses nothing. */
  lemma {:induction false} SplitBeforeUpperLossless(s: string)
    ensures Join(SplitBeforeUpper(s), "") == s
  {
    if |s| > 1 {
      var init := s[..|s| - 1];
      var c := s[|s| - 1];
      SplitBeforeUpperLossless(init);
      assert s == init + [c];
      if IsUpper(c) {
        JoinSnoc(SplitBeforeUpper(init), [c], "");
      } else {
        JoinExtendLast(SplitBeforeUpper(init), c, "");
      }
    }
  }

  /** No upper-case letter after the first character. */
  predicate NoInnerUpper(w: string)
  {
    forall j :: 1 <= j < |w| ==> !IsUpper(w[j])
  }

  /** Number of upper-case letters after the first character. */
  function InnerUpperCount(s: string): nat
  {
    if |s| <= 1 then 0
    else InnerUpperCount(s[..|s| - 1]) + (if IsUpper(s[|s| - 1]) then 1 else 0)
  }

  /** Reference definition: `s` with a '.' put before every non-initial upper-case letter. */
  function DotBeforeUpper(s: string): string
  {
    if |s| <= 1 then s
    else
      var c := s[|s| - 1];
      DotBeforeUpper(s[..|s| - 1]) + (if IsUpper(c) then ['.', c] else [c])
  }

  /** Joining the regular-expression split with "." is the reference definition. */
  lemma {:induction false} JoinedSplitIsDotted(s: string)
    ensures Join(SplitBeforeUpper(s), ".") == DotBeforeUpper(s)
  {
    if |s| > 1 {
      var init := s[..|s| - 1];
      var c := s[|s| - 1];
      JoinedSplitIsDotted(init);
      if IsUpper(c) {
        JoinSnoc(SplitBeforeUpper(init), [c], ".");
      } else {
        JoinExtendLast(SplitBeforeUpper(init), c, ".");
      }
    }
  }

  /** The reference definition adds exactly one '.' per non-initial upper-case letter. */
  lemma {:induction false} DottedCount(s: string)
    ensures Count(DotBeforeUpper(s), '.') == Count(s, '.') + InnerUpperCount(s)
  {
    if |s| > 1 {
      var init := s[..|s| - 1];
      var c := s[|s| - 1];
      DottedCount(init);
      assert s == init + [c];
      CountAppend(init, [c], '.');
      CountAppend(DotBeforeUpper(init), if IsUpper(c) then ['.', c] else [c], '.');
    }
  }

  /** Cutting `a + b` where `b` is non-empty: the reference definition of each half, with a '.' between them when `b` starts upper-case. */
  lemma {:induction false} DottedAppend(a: string, b: string)
    requires |a| >= 1 && |b| >= 1
    ensures DotBeforeUpper(a + b) == DotBeforeUpper(a) + (if IsUpper(b[0]) then "." else "") + DotBeforeUpper(b)
    decreases |b|
  {
    var c := b[|b| - 1];
    if |b| == 1 {
      assert (a + b)[..|a + b| - 1] == a;
    } else {
      var binit := b[..|b| - 1];
      assert (a + b)[..|a + b| - 1] == a + binit;
      DottedAppend(a, binit);
    }
  }

  /** A word without inner upper-case letters is left as it is. */
  lemma {:induction false} DottedWord(w: string)
    requires NoInnerUpper(w)
    ensures DotBeforeUpper(w) == w
  {
    if |w| > 1 {
      DottedWord(w[..|w| - 1]);
    }
  }

  lemma PrefixHasNoUpper()
    ensures forall i :: 0 <= i < |"dm."| ==> !IsUpper("dm."[i])
  {
    assert |"dm."| == 3 && "dm."[0] == 'd' && "dm."[1] == 'm' && "dm."[2] == '.';
  }

  /** "dm." followed by an identifier cut before each non-initial capital, joined with "." and lower-cased. */
  function WireName(id: string): (name: string)
    ensures |name| >= 3 && name[..3] == "dm."
    ensures forall i :: 0 <= i < |name| ==> !IsUpper(name[i])
    ensures Count(name, '.') == 1 + Count(id, '.') + InnerUpperCount(id)
  {
    var joined := Join(SplitBeforeUpper(id), ".");
    JoinedSplitIsDotted(id);
    DottedCount(id);
    ToLowerShape(joined);
    PrefixHasNoUpper();
    NoUpperConcat("dm.", ToLower(joined));
    CountAppend("dm.", ToLower(joined), '.');
    "dm." + ToLower(joined)
  }

  /** The wire name is the reference definition of the identifier, lower-cased, after "dm.". */
  lemma WireNameDotted(id: string)
    ensures WireName(id) == "dm." + ToLower(DotBeforeUpper(id))
  {
    JoinedSplitIsDotted(id);
  }

  /** The wire name of two capitalised words without inner capitals. */
  lemma {:induction false} WireNameOfTwoWords(first: string, second: string)
    requires |first| >= 1 && |second| >= 1 && IsUpper(second[0])
    requires NoInnerUpper(first) && NoInnerUpper(second)
    ensures WireName(first + second) == "dm." + ToLower(first) + "." + ToLower(second)
  {
    var dot := ".";
    calc {
      WireName(first + second);
      { WireNameDotted(first + second); }
      "dm." + ToLower(DotBeforeUpper(first + second));
      { DottedAppend(first, second); DottedWord(first); DottedWord(second); }
      "dm." + ToLower(first + dot + second);
      { ToLowerAppend(first + dot, second); ToLowerAppend(first, dot); }
      "dm." + (ToLower(first) + ToLower(dot) + ToLower(second));
      { assert ToLower(dot) == dot; }
      "dm." + ToLower(first) + dot + ToLower(second);
    }
  }

  lemma EventNameHasNoDot(e: Event)
    ensures '.' !in EventName(e)
  {
  }

  /**
    `EnumToString`: the wire name of an event, "dm." followed by its
    identifier split before each non-initial capital, joined with "." and
    lower-cased. It is written as the table of the five results;
    `EnumToStringIsWireName` proves every entry is what that pipeline
    (`WireName`) computes from the identifier.
   */
  function EnumToString(eventType: Event): string
  {
    match eventType
    case VersionAdded => "dm.version.added"
    case VersionModified => "dm.version.modified"
    case VersionDeleted => "dm.version.deleted"
    case VersionMoved => "dm.version.moved"
    case VersionCoped => "dm.version.coped"
  }

  /** "Version" is one capitalised word, lower-cased to "version". */
  lemma VersionWord()
    ensures |"Version"| >= 1 && NoInnerUpper("Version") && ToLower("Version") == "version"
  {
  }

  /** The wire name of two words with a known lower-cased first word. */
  lemma {:induction false} WireNameAfterWord(first: string, lowerFirst: string, word: string)
    requires |first| >= 1 && NoInnerUpper(first) && ToLower(first) == lowerFirst
    requires |word| >= 1 && IsUpper(word[0]) && NoInnerUpper(word)
    ensures WireName(first + word) == "dm." + lowerFirst + "." + ToLower(word)
  {
    WireNameOfTwoWords(first, word);
  }

  /** The wire name of an event whose identifier is two capitalised words. */
  lemma WireNameOfEventWords(eventType: Event, first: string, lowerFirst: string, word: string, lower: string)
    requires EventName(eventType) == first + word
    requires |first| >= 1 && NoInnerUpper(first) && ToLower(first) == lowerFirst
    requires |word| >= 1 && IsUpper(word[0]) && NoInnerUpper(word) && ToLower(word) == lower
    ensures WireName(EventName(eventType)) == "dm." + lowerFirst + "." + lower
  {
    WireNameAfterWord(first, lowerFirst, word);
  }

  // Each entry of the table in small steps: the identifier as "Version"
  // and one capitalised word, the lower-cased word, the entry itself.
  // The five events get one group each, rather than one lemma over all
  // events, so that no proof has both the literal identifiers and the
  // unfolding of `WireName` in view at once: the generic
  // `WireNameOfEventWords` does the unfolding over variables, and these
  // lemmas only supply the literal facts it needs. Put together, the same
  // facts make the verifier expand the recursive definitions on literal
  // strings far past its resource limit.

  lemma NameAdded(e: Event) requires e == VersionAdded ensures EventName(e) == "Version" + "Added" {}
  lemma WordAdded() ensures IsUpper("Added"[0]) && NoInnerUpper("Added") && ToLower("Added") == "added" {}
  lemma EntryAdded(e: Event) requires e == VersionAdded ensures EnumToString(e) == "dm." + "version" + "." + "added" {}
  lemma WireNameAdded(e: Event)
    requires e == VersionAdded
    ensures EnumToString(e) == WireName(EventName(e))
  {
    NameAdded(e);
    WordAdded();
    EntryAdded(e);
    VersionWord();
    WireNameOfEventWords(e, "Version", "version", "Added", "added");
  }

  lemma NameModified(e: Event) requires e == VersionModified ensures EventName(e) == "Version" + "Modified" {}
  lemma WordModified() ensures IsUpper("Modified"[0]) && NoInnerUpper("Modified") && ToLower("Modified") == "modified" {}
  lemma EntryModified(e: Event) requires e == VersionModified ensures EnumToString(e) == "dm." + "version" + "." + "modified" {}
  lemma WireNameModified(e: Event)
    requires e == VersionModified
    ensures EnumToString(e) == WireName(EventName(e))
  {
    NameModified(e);
    WordModified();
    EntryModified(e);
    VersionWord();
    WireNameOfEventWords(e, "Version", "version", "Modified", "modified");
  }

  lemma NameDeleted(e: Event) requires e == VersionDeleted ensures EventName(e) == "Version" + "Deleted" {}
  lemma WordDeleted() ensures IsUpper("Deleted"[0]) && NoInnerUpper("Deleted") && ToLower("Deleted") == "deleted" {}
  lemma EntryDeleted(e: Event) requires e == VersionDeleted ensures EnumToString(e) == "dm." + "version" + "." + "deleted" {}
  lemma WireNameDeleted(e: Event)
    requires e == VersionDeleted
    ensures EnumToString(e) == WireName(EventName(e))
  {
    NameDeleted(e);
    WordDeleted();
    EntryDeleted(e);
    VersionWord();
    WireNameOfEventWords(e, "Version", "version", "Deleted", "deleted");
  }

  lemma NameMoved(e: Event) requires e == VersionMoved ensures EventName(e) == "Version" + "Moved" {}
  lemma WordMoved() ensures IsUpper("Moved"[0]) && NoInnerUpper("Moved") && ToLower("Moved") == "moved" {}
  lemma EntryMoved(e: Event) requires e == VersionMoved ensures EnumToString(e) == "dm." + "version" + "." + "moved" {}
  lemma WireNameMoved(e: Event)
    requires e == VersionMoved
    ensures EnumToString(e) == WireName(EventName(e))
  {
    NameMoved(e);
    WordMoved();
    EntryMoved(e);
    VersionWord();
    WireNameOfEventWords(e, "Version", "version", "Moved", "moved");
  }

  lemma NameCoped(e: Event) requires e == VersionCoped ensures EventName(e) == "Version" + "Coped" {}
  lemma WordCoped() ensures IsUpper("Coped"[0]) && NoInnerUpper("Coped") && ToLower("Coped") == "coped" {}
  lemma EntryCoped(e: Event) requires e == VersionCoped ensures EnumToString(e) == "dm." + "version" + "." + "coped" {}
  lemma WireNameCoped(e: Event)
    requires e == VersionCoped
    ensures EnumToString(e) == WireName(EventName(e))
  {
    NameCoped(e);
    WordCoped();
    EntryCoped(e);
    VersionWord();
    WireNameOfEventWords(e, "Version", "version", "Coped", "coped");
  }

  /** Every entry of the table is the split-join-lower pipeline applied to the identifier, the misspelt `VersionCoped` included. */
  lemma EnumToStringIsWireName(eventType: Event)
    ensures EnumToString(eventType) == WireName(EventName(eventType))
  {
    match eventType
    case VersionAdded => WireNameAdded(eventType);
    case VersionModified => WireNameModified(eventType);
    case VersionDeleted => WireNameDeleted(eventType);
    case VersionMoved => WireNameMoved(eventType);
    case VersionCoped => WireNameCoped(eventType);
  }

  /** Every wire name starts "dm.", has no capital, and has one '.' per word of the identifier. */
  lemma EnumToStringShape(eventType: Event)
    ensures var name := EnumToString(eventType);
            && |name| >= 3 && name[..3] == "dm."
            && (forall i :: 0 <= i < |name| ==> !IsUpper(name[i]))
            && Count(name, '.') == 1 + InnerUpperCount(EventName(eventType))
  {
    EnumToStringIsWireName(eventType);
    EventNameHasNoDot(eventType);
  }

  /** Distinct events have distinct wire names. */
  lemma EnumToStringInjective(e1: Event, e2: Event)
    requires EnumToString(e1) == EnumToString(e2)
    ensures e1 == e2
  {
    assert EnumToString(e1)[11] == EnumToString(e2)[11];
    assert |EnumToString(e1)| == |EnumToString(e2)|;
  }

  /** An HTTP status code as RestSharp reports it. */
  type HttpStatus = int

  /** RestSharp's `Method`. */
  datatype Verb = GET | POST | DELETE

  /** The JSON body of a create-hook request: `{ callbackUrl, scope: { folder }, hookAttribute: { projectId } }`. */
  datatype Scope = Scope(folder: string)
  datatype HookAttribute = HookAttribute(projectId: string)
  datatype HookBody = HookBody(callbackUrl: string, scope: Scope, hookAttribute: HookAttribute)

  /** A parameter added to a `RestRequest`. */
  datatype Parameter =
    | UrlSegment(name: string, value: string)
    | HttpHeader(name: string, value: string)
    | JsonBody(body: HookBody)

  /** A `RestRequest` as it is handed to the client: resource template, verb, parameters in the order added. */
  datatype RestRequest = RestRequest(resource: string, verb: Verb, parameters: seq<Parameter>)

  /** The value the request gives the URL segment `{name}`: its first segment parameter of that name. */
  function SegmentValue(parameters: seq<Parameter>, name: string): Option<string>
  {
    if parameters == [] then None
    else if parameters[0].UrlSegment? && parameters[0].name == name then Some(parameters[0].value)
    else SegmentValue(parameters[1..], name)
  }

  /** The value of the request's first header named `name`. */
  function HeaderValue(parameters: seq<Parameter>, name: string): Option<string>
  {
    if parameters == [] then None
    else if parameters[0].HttpHeader? && parameters[0].name == name then Some(parameters[0].value)
    else HeaderValue(parameters[1..], name)
  }

  /** The request's JSON body, if it has one. */
  function BodyOf(parameters: seq<Parameter>): Option<HookBody>
  {
    if parameters == [] then None
    else if parameters[0].JsonBody? then Some(parameters[0].body)
    else BodyOf(parameters[1..])
  }

  const HooksResource := "/webhooks/v1/systems/data/events/{event}/hooks"
  const ListResource := HooksResource + "?scopeName=folder&scopeValue={folderId}"
  const HookResource := HooksResource + "/{hook_id}"

  /** The two headers every hook request carries. */
  function AuthHeaders(accessToken: string, region: string): seq<Parameter>
  {
    [HttpHeader("Authorization", "Bearer " + accessToken), HttpHeader("x-ads-region", region)]
  }

  /**
    In a parameter list whose first `n` entries are URL segments followed by
    the two auth headers, those headers are the ones found.
   */
  lemma {:induction false} LookupsOfAuthHeaders(ps: seq<Parameter>, n: nat, accessToken: string, region: string)
    requires n + 2 <= |ps| && ps[n..n + 2] == AuthHeaders(accessToken, region)
    requires forall i :: 0 <= i < n ==> ps[i].UrlSegment?
    ensures HeaderValue(ps, "Authorization") == Some("Bearer " + accessToken)
    ensures HeaderValue(ps, "x-ads-region") == Some(region)
    ensures BodyOf(ps) == BodyOf(ps[n + 2..])
  {
    if n > 0 {
      LookupsOfAuthHeaders(ps[1..], n - 1, accessToken, region);
      assert ps[1..][n - 1 + 2..] == ps[n + 2..];
    } else {
      assert ps[1..][1..] == ps[2..];
    }
  }

  /** The GET that lists the hooks of an event on one folder. */
  function HooksRequest(accessToken: string, eventType: Event, folderId: string, region: string): RestRequest
  {
    RestRequest(ListResource, GET, [UrlSegment("event", EnumToString(eventType)), UrlSegment("folderId", folderId)]
                                   + AuthHeaders(accessToken, region))
  }

  /** The listing asks for the event's hooks on the folder, with the user's token and region. */
  lemma HooksRequestReads(accessToken: string, eventType: Event, folderId: string, region: string)
    ensures var req := HooksRequest(accessToken, eventType, folderId, region);
            && req.verb == GET && req.resource == ListResource
            && SegmentValue(req.parameters, "event") == Some(EnumToString(eventType))
            && SegmentValue(req.parameters, "folderId") == Some(folderId)
            && HeaderValue(req.parameters, "Authorization") == Some("Bearer " + accessToken)
            && HeaderValue(req.parameters, "x-ads-region") == Some(region)
            && BodyOf(req.parameters) == None
  {
    LookupsOfAuthHeaders(HooksRequest(accessToken, eventType, folderId, region).parameters, 2, accessToken, region);
  }

  /** The POST that registers a hook on a folder, calling back `callbackUrl`. */
  function CreateHookRequest(accessToken: string, callbackUrl: string, eventType: Event, projectId: string,
                             folderId: string, region: string): RestRequest
  {
    var body := HookBody(callbackUrl, Scope(folderId), HookAttribute(projectId));
    RestRequest(HooksResource, POST, [UrlSegment("event", EnumToString(eventType))] + AuthHeaders(accessToken, region) + [JsonBody(body)])
  }

  /** The registration carries the event, the user's token and region, and a body naming the callback, folder and project. */
  lemma CreateHookRequestReads(accessToken: string, callbackUrl: string, eventType: Event, projectId: string,
                               folderId: string, region: string)
    ensures var req := CreateHookRequest(accessToken, callbackUrl, eventType, projectId, folderId, region);
            && req.verb == POST && req.resource == HooksResource
            && SegmentValue(req.parameters, "event") == Some(EnumToString(eventType))
            && HeaderValue(req.parameters, "Authorization") == Some("Bearer " + accessToken)
            && HeaderValue(req.parameters, "x-ads-region") == Some(region)
            && BodyOf(req.parameters) == Some(HookBody(callbackUrl, Scope(folderId), HookAttribute(projectId)))
  {
    var ps := CreateHookRequest(accessToken, callbackUrl, eventType, projectId, folderId, region).parameters;
    LookupsOfAuthHeaders(ps, 1, accessToken, region);
    assert ps[3..] == [JsonBody(HookBody(callbackUrl, Scope(folderId), HookAttribute(projectId)))];
  }

  /** The DELETE of one hook. */
  function DeleteHookRequest(accessToken: string, eventType: Event, hookId: string, region: string): RestRequest
  {
    RestRequest(HookResource, DELETE, [UrlSegment("event", EnumToString(eventType)), UrlSegment("hook_id", hookId)]
                                      + AuthHeaders(accessToken, region))
  }

  /** The deletion names the event and the hook, with the user's token and region. */
  lemma DeleteHookRequestReads(accessToken: string, eventType: Event, hookId: string, region: string)
    ensures var req := DeleteHookRequest(accessToken, eventType, hookId, region);
            && req.verb == DELETE && req.resource == HookResource
            && SegmentValue(req.parameters, "event") == Some(EnumToString(eventType))
            && SegmentValue(req.parameters, "hook_id") == Some(hookId)
            && HeaderValue(req.parameters, "Authorization") == Some("Bearer " + accessToken)
            && HeaderValue(req.parameters, "x-ads-region") == Some(region)
            && BodyOf(req.parameters) == None
  {
    LookupsOfAuthHeaders(DeleteHookRequest(accessToken, eventType, hookId, region).parameters, 2, accessToken, region);
  }

  /** Each hook gets its own DELETE: requests for different ids differ. */
  lemma DeleteHookRequestInjective(accessToken: string, eventType: Event, id1: string, id2: string, region: string)
    requires DeleteHookRequest(accessToken, eventType, id1, region) == DeleteHookRequest(accessToken, eventType, id2, region)
    ensures id1 == id2
  {
    DeleteHookRequestReads(accessToken, eventType, id1, region);
    DeleteHookRequestReads(accessToken, eventType, id2, region);
  }

  /** `GetHookData.Hook`, reduced to the one field this code reads. */
  datatype Hook = Hook(hookId: string)

  /** The signed-in user's credentials; only the access token is used here. */
  datatype Credentials = Credentials(tokenInternal: string)

  /** The answers of the Forge servers. */
  datatype ForgeApi = ForgeApi(
    hubRegion: (string, string) -> string,  // (access token, hub id) to the hub's region attribute
    hookList: RestRequest -> seq<Hook>,     // the `data` list of a list-hooks response
    status: RestRequest -> HttpStatus)      // the status code of a create or delete response

  /** One call to something outside the modelled code. */
  datatype Call =
    | SessionLookup                                // Credentials.FromSessionAsync
    | HubLookup(accessToken: string, hubId: string) // HubsApi.GetHubAsync
    | Send(request: RestRequest)                   // RestClient.ExecuteTaskAsync
    | DatabaseLookup(userId: string)               // Credentials.FromDatabaseAsync
    | ManifestLookup(accessToken: string, urn: string) // DerivativesApi.GetManifestAsync

  /** No two hooks share an id. */
  predicate DistinctIds(hooks: seq<Hook>)
  {
    forall i, j :: 0 <= i < j < |hooks| ==> hooks[i].hookId != hooks[j].hookId
  }

  /** The ids of the hooks. */
  function IdsOf(hooks: seq<Hook>): set<string>
  {
    set h | h in hooks :: h.hookId
  }

  /** The position of the first hook whose id an earlier hook already has. */
  function FirstRepeat(hooks: seq<Hook>): (k: nat)
    requires !DistinctIds(hooks)
    ensures k < |hooks|
    ensures DistinctIds(hooks[..k])
    ensures hooks[k].hookId in IdsOf(hooks[..k])
  {
    var n := |hooks| - 1;
    if DistinctIds(hooks[..n]) then
      assert hooks[..n + 1] == hooks;
      var i, j :| 0 <= i < j < |hooks| && hooks[i].hookId == hooks[j].hookId;
      assert j == n;
      assert hooks[..n][i] == hooks[i];
      n
    else
      var k := FirstRepeat(hooks[..n]);
      assert hooks[..n][..k] == hooks[..k];
      k
  }

  /** A hook whose id an earlier hook has breaks distinctness. */
  lemma RepeatBreaksDistinct(hooks: seq<Hook>, k: nat)
    requires k < |hooks| && hooks[k].hookId in IdsOf(hooks[..k])
    ensures !DistinctIds(hooks)
  {
    var h :| h in hooks[..k] && h.hookId == hooks[k].hookId;
    var i :| 0 <= i < k && hooks[..k][i] == h;
    assert hooks[i].hookId == hooks[k].hookId;
  }

  /** The repeat found after a run of distinct ids is the first one. */
  lemma {:induction false} FirstRepeatAt(hooks: seq<Hook>, k: nat)
    requires k < |hooks| && DistinctIds(hooks[..k]) && hooks[k].hookId in IdsOf(hooks[..k])
    ensures !DistinctIds(hooks) && FirstRepeat(hooks) == k
  {
    RepeatBreaksDistinct(hooks, k);
    var n := |hooks| - 1;
    var prefix := hooks[..n];
    if k < n {
      assert prefix[..k] == hooks[..k];
      assert prefix[k] == hooks[k];
      FirstRepeatAt(prefix, k);
    } else {
      assert prefix == hooks[..k];
    }
  }

  /** Adding a hook whose id is new keeps the ids distinct. */
  lemma DistinctIdsSnoc(hooks: seq<Hook>, h: Hook)
    requires DistinctIds(hooks) && h.hookId !in IdsOf(hooks)
    ensures DistinctIds(hooks + [h])
  {
    var all := hooks + [h];
    forall i, j | 0 <= i < j < |all|
      ensures all[i].hookId != all[j].hookId
    {
      if j == |hooks| {
        assert all[i] in hooks;
      }
    }
  }

  /** The DELETE calls for the hooks, in list order. */
  function DeleteCalls(accessToken: string, eventType: Event, region: string, hooks: seq<Hook>): seq<Call>
  {
    if hooks == [] then []
    else
      DeleteCalls(accessToken, eventType, region, hooks[..|hooks| - 1])
      + [Send(DeleteHookRequest(accessToken, eventType, hooks[|hooks| - 1].hookId, region))]
  }

  /** One DELETE per hook, in list order, each naming that hook's id. */
  lemma {:induction false} DeleteCallsShape(accessToken: string, eventType: Event, region: string, hooks: seq<Hook>)
    ensures |DeleteCalls(accessToken, eventType, region, hooks)| == |hooks|
    ensures forall i :: 0 <= i < |hooks| ==>
              DeleteCalls(accessToken, eventType, region, hooks)[i]
              == Send(DeleteHookRequest(accessToken, eventType, hooks[i].hookId, region))
  {
    if hooks != [] {
      var n := |hooks| - 1;
      DeleteCallsShape(accessToken, eventType, region, hooks[..n]);
    }
  }

  /** The status of deleting the hook with id `hookId`. */
  function DeleteStatus(api: ForgeApi, accessToken: string, eventType: Event, region: string, hookId: string): HttpStatus
  {
    api.status(DeleteHookRequest(accessToken, eventType, hookId, region))
  }

  /** The dictionary `DeleteHook` fills: each hook's id, in list order, mapped to its DELETE status. */
  function StatusMap(api: ForgeApi, accessToken: string, eventType: Event, region: string, hooks: seq<Hook>): map<string, HttpStatus>
  {
    if hooks == [] then map[]
    else
      var last := hooks[|hooks| - 1];
      StatusMap(api, accessToken, eventType, region, hooks[..|hooks| - 1])[last.hookId := DeleteStatus(api, accessToken, eventType, region, last.hookId)]
  }

  /** The dictionary's keys are exactly the hooks' ids. */
  lemma {:induction false} StatusMapKeys(api: ForgeApi, accessToken: string, eventType: Event, region: string, hooks: seq<Hook>)
    ensures StatusMap(api, accessToken, eventType, region, hooks).Keys == IdsOf(hooks)
  {
    if hooks != [] {
      var n := |hooks| - 1;
      var front := hooks[..n];
      StatusMapKeys(api, accessToken, eventType, region, front);
      assert hooks == front + [hooks[n]];
      assert IdsOf(hooks) == IdsOf(front) + {hooks[n].hookId};
    }
  }

  /** Each hook's id is mapped to the status of its own DELETE. */
  lemma {:induction false} StatusMapValues(api: ForgeApi, accessToken: string, eventType: Event, region: string, hooks: seq<Hook>)
    ensures forall h :: h in hooks ==>
              && h.hookId in StatusMap(api, accessToken, eventType, region, hooks)
              && StatusMap(api, accessToken, eventType, region, hooks)[h.hookId] == DeleteStatus(api, accessToken, eventType, region, h.hookId)
  {
    if hooks != [] {
      var n := |hooks| - 1;
      var front := hooks[..n];
      StatusMapValues(api, accessToken, eventType, region, front);
      assert hooks == front + [hooks[n]];
    }
  }

  /** One more hook adds its DELETE to the calls and its status to the dictionary. */
  lemma DeleteStep(api: ForgeApi, accessToken: string, eventType: Event, region: string, hooks: seq<Hook>, i: nat)
    requires i < |hooks|
    ensures DeleteCalls(accessToken, eventType, region, hooks[..i + 1])
            == DeleteCalls(accessToken, eventType, region, hooks[..i]) + [Send(DeleteHookRequest(accessToken, eventType, hooks[i].hookId, region))]
    ensures StatusMap(api, accessToken, eventType, region, hooks[..i + 1])
            == StatusMap(api, accessToken, eventType, region, hooks[..i])[hooks[i].hookId := DeleteStatus(api, accessToken, eventType, region, hooks[i].hookId)]
  {
    assert hooks[..i + 1][..i] == hooks[..i];
  }

  /**
    One turn of `DeleteHook`'s loop over distinct ids so far: the hook's id
    is already a key exactly when it repeats an earlier id, which makes it
    the first repeat; otherwise the ids stay distinct and the dictionary
    and the calls grow by this hook's entry and DELETE.
   */
  lemma DeleteLoopStep(api: ForgeApi, accessToken: string, eventType: Event, region: string, hooks: seq<Hook>,
                       i: nat, listed: seq<Call>)
    requires i < |hooks| && DistinctIds(hooks[..i])
    ensures var id := hooks[i].hookId;
            var before := StatusMap(api, accessToken, eventType, region, hooks[..i]);
            && (id in before ==> !DistinctIds(hooks) && FirstRepeat(hooks) == i)
            && (id !in before ==> DistinctIds(hooks[..i + 1]))
            && StatusMap(api, accessToken, eventType, region, hooks[..i + 1])
               == before[id := DeleteStatus(api, accessToken, eventType, region, id)]
            && listed + DeleteCalls(accessToken, eventType, region, hooks[..i])
                 + [Send(DeleteHookRequest(accessToken, eventType, id, region))]
               == listed + DeleteCalls(accessToken, eventType, region, hooks[..i + 1])
  {
    var id := hooks[i].hookId;
    var front := DeleteCalls(accessToken, eventType, region, hooks[..i]);
    var send := Send(DeleteHookRequest(accessToken, eventType, id, region));
    DeleteStep(api, accessToken, eventType, region, hooks, i);
    assert listed + front + [send] == listed + (front + [send]);
    StatusMapKeys(api, accessToken, eventType, region, hooks[..i]);
    if id in IdsOf(hooks[..i]) {
      FirstRepeatAt(hooks, i);
    } else {
      DistinctIdsSnoc(hooks[..i], hooks[i]);
      assert hooks[..i + 1] == hooks[..i] + [hooks[i]];
    }
  }

  /** The webhooks client of one user: their access token and the URL hooks call back. */
  class DMWebhook {
    const accessToken: string
    const callbackUrl: string

    constructor(accessToken: string, callbackUrl: string)
      ensures this.accessToken == accessToken && this.callbackUrl == callbackUrl
    {
      this.accessToken := accessToken;
      this.callbackUrl := callbackUrl;
    }

    /** The region attribute of a hub, asked of the Data Management API with this token. */
    method GetHubRegion(api: ForgeApi, hubId: string) returns (region: string, calls: seq<Call>)
      ensures region == api.hubRegion(accessToken, hubId)
      ensures calls == [HubLookup(accessToken, hubId)]
    {
      region := api.hubRegion(accessToken, hubId);
      calls := [HubLookup(accessToken, hubId)];
    }

    /** The hooks of an event on a folder: the response's list as it came, with no filtering. */
    method Hooks(api: ForgeApi, eventType: Event, folderId: string, region: string)
      returns (hooks: seq<Hook>, calls: seq<Call>)
      ensures calls == [Send(HooksRequest(accessToken, eventType, folderId, region))]
      ensures hooks == api.hookList(HooksRequest(accessToken, eventType, folderId, region))
    {
      var request := HooksRequest(accessToken, eventType, folderId, region);
      hooks := api.hookList(request);
      calls := [Send(request)];
    }

    /** Registers a hook on a folder; the response status is returned as it came. */
    method CreateHook(api: ForgeApi, eventType: Event, projectId: string, folderId: string, region: string)
      returns (status: HttpStatus, calls: seq<Call>)
      ensures calls == [Send(CreateHookRequest(accessToken, callbackUrl, eventType, projectId, folderId, region))]
      ensures status == api.status(CreateHookRequest(accessToken, callbackUrl, eventType, projectId, folderId, region))
    {
      var request := CreateHookRequest(accessToken, callbackUrl, eventType, projectId, folderId, region);
      status := api.status(request);
      calls := [Send(request)];
    }

    /**
      Lists the hooks of an event on a folder, then deletes them one by one in
      list order, recording each DELETE's status under the hook's id. A failed
      status does not stop the loop. A repeated id makes `Dictionary.Add` throw
      after that hook's DELETE has been sent.
     */
    method DeleteHook(api: ForgeApi, eventType: Event, folderId: string, region: string)
      returns (r: Outcome<map<string, HttpStatus>>, calls: seq<Call>)
      ensures var hooks := api.hookList(HooksRequest(accessToken, eventType, folderId, region));
              r.Returns? <==> DistinctIds(hooks)
      ensures var listing := HooksRequest(accessToken, eventType, folderId, region);
              var hooks := api.hookList(listing);
              r.Returns? ==>
                && r.value == StatusMap(api, accessToken, eventType, region, hooks)
                && calls == [Send(listing)] + DeleteCalls(accessToken, eventType, region, hooks)
      ensures var listing := HooksRequest(accessToken, eventType, folderId, region);
              var hooks := api.hookList(listing);
              r.Throws? ==>
                var k := FirstRepeat(hooks);
                && r.error == DuplicateKey(hooks[k].hookId)
                && calls == [Send(listing)] + DeleteCalls(accessToken, eventType, region, hooks[..k + 1])
    {
      var hooks;
      hooks, calls := Hooks(api, eventType, folderId, region);
      ghost var listed := calls;
      var status: map<string, HttpStatus> := map[];
      var i := 0;
      while i < |hooks|
        invariant 0 <= i <= |hooks|
        invariant DistinctIds(hooks[..i])
        invariant status == StatusMap(api, accessToken, eventType, region, hooks[..i])
        invariant calls == listed + DeleteCalls(accessToken, eventType, region, hooks[..i])
      {
        var hook := hooks[i];
        var request := DeleteHookRequest(accessToken, eventType, hook.hookId, region);
        var code := api.status(request);
        calls := calls + [Send(request)];
        DeleteLoopStep(api, accessToken, eventType, region, hooks, i, listed);
        if hook.hookId in status {
          return Throws(DuplicateKey(hook.hookId)), calls;
        }
        status := status[hook.hookId := code];
        i := i + 1;
      }
      assert hooks[..i] == hooks;
      r := Returns(status);
    }
  }
}
