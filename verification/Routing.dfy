/** Dispatch of HTTP requests over a tree of path handlers: first match among siblings, no
    backtracking, authentication on the way down. */
module Routing {
  import opened Wrappers

  /** What routing looks at: the target and the authorization field, "" if there is none. */
  datatype Request = Request(target: string, authorization: string)

  datatype Handler = Handler(
    matches: string -> bool, requiresAuth: bool, authenticate: (Request, string, string) -> bool,
    children: seq<Handler>)

  datatype Outcome =
    | Handled(handler: Handler, rest: seq<string>)   // the handler's own callback answers
    | BadTarget                                      // 400, malformed
    | NoHandlerInstalled                             // 503
    | EmptyTarget                                    // 400, nothing left to match
    | NoMatch                                        // 400, illegal
    | NeedAuthorisation                              // 401, no field
    | AuthorisationFailed(username: string)          // 401
    | Threw                                          // the field is shorter than its scheme

  // ---------------------------------------------------------------- splitting the target

  function Find(s: string, c: char): (i: nat)
    ensures i <= |s| && c !in s[..i]
    ensures i < |s| ==> s[i] == c
    ensures c in s ==> i < |s|
  {
    if s == "" || s[0] == c then 0 else 1 + Find(s[1..], c)
  }

  lemma {:induction false} FindIs(s: string, c: char, k: nat)
    requires k < |s| && s[k] == c && c !in s[..k]
    ensures Find(s, c) == k
    decreases |s|
  {
    if k > 0 {
      assert s[0] in s[..k];
      assert s[1..][..k - 1] == s[..k][1..];
      FindIs(s[1..], c, k - 1);
    }
  }

  /** What one `getline` takes off the target, and what it leaves. */
  function Part(s: string): string {
    s[..Find(s, '/')]
  }

  function Rest(s: string): (rest: string)
    ensures s != "" ==> |rest| < |s|
  {
    var i := Find(s, '/');
    if i < |s| then s[i + 1..] else ""
  }

  /** The parts between slashes; a part after the last slash counts only if it is not empty. */
  function Split(s: string): seq<string>
    decreases |s|
  {
    if s == "" then [] else [Part(s)] + Split(Rest(s))
  }

  function Rejoin(parts: seq<string>): string {
    if parts == [] then "" else parts[0] + "/" + Rejoin(parts[1..])
  }

  predicate EndsInSlash(s: string) {
    s != "" && s[|s| - 1] == '/'
  }

  lemma PartAndRest(s: string)
    requires s != ""
    ensures '/' !in Part(s)
    ensures s == if '/' in s then Part(s) + "/" + Rest(s) else Part(s)
    ensures '/' in s && Rest(s) != "" ==> EndsInSlash(s) == EndsInSlash(Rest(s))
    ensures '/' in s && Rest(s) == "" ==> EndsInSlash(s)
    ensures '/' !in s ==> !EndsInSlash(s) && Rest(s) == ""
  {
    var i := Find(s, '/');
    if i < |s| {
      assert s == s[..i] + [s[i]] + s[i + 1..];
    } else {
      assert s[..i] == s;
      assert '/' in s ==> false;
    }
  }

  /** Splitting loses nothing but the distinction whether the target ended in a slash. */
  lemma {:induction false} SplitRejoins(s: string)
    ensures Rejoin(Split(s)) == if s == "" || EndsInSlash(s) then s else s + "/"
    decreases |s|
  {
    if s != "" {
      PartAndRest(s);
      SplitRejoins(Rest(s));
      assert Split(s)[1..] == Split(Rest(s));
      Glue(Part(s), Rest(s));
    }
  }

  lemma Glue(part: string, rest: string)
    ensures part + "/" + (rest + "/") == part + "/" + rest + "/"
    ensures part + "/" + "" == part + "/"
  {
  }

  predicate EndsInTwoSlashes(s: string) {
    |s| >= 2 && s[|s| - 1] == '/' && s[|s| - 2] == '/'
  }

  predicate HasEmptyEnd(s: string) {
    s == "/" || EndsInTwoSlashes(s)
  }

  lemma LastPartStep(s: string)
    requires s != ""
    ensures Split(s) != [] && (Rest(s) != "" ==> Split(Rest(s)) != [])
    ensures Split(s)[|Split(s)| - 1] ==
            if Rest(s) == "" then Part(s) else Split(Rest(s))[|Split(Rest(s))| - 1]
  {
  }

  lemma EmptyEndStep(s: string)
    requires s != ""
    ensures HasEmptyEnd(s) <==> if Rest(s) == "" then Part(s) == "" else HasEmptyEnd(Rest(s))
  {
    PartAndRest(s);
    if '/' !in s {
      assert s[|s| - 1] in s;
    } else if Rest(s) != "" {
      LastTwo(Part(s), Rest(s));
    } else if |s| >= 2 {
      assert s[|s| - 2] == Part(s)[|s| - 2] && Part(s)[|s| - 2] in Part(s);
    }
  }

  /** The last part is empty only for a target that ends in two slashes, or is a single one. */
  lemma {:induction false} LastPartIsEmptyIff(s: string)
    ensures Split(s) != [] && Split(s)[|Split(s)| - 1] == "" <==> HasEmptyEnd(s)
    decreases |s|
  {
    if s != "" {
      LastPartStep(s);
      EmptyEndStep(s);
      if Rest(s) != "" { LastPartIsEmptyIff(Rest(s)); }
    }
  }

  lemma LastTwo(part: string, rest: string)
    requires rest != ""
    ensures var s := part + "/" + rest;
            EndsInTwoSlashes(s) <==> rest == "/" || EndsInTwoSlashes(rest)
  {
    var s := part + "/" + rest;
    assert s[|s| - 1] == rest[|rest| - 1];
    if |rest| == 1 {
      assert s[|s| - 2] == '/';
    } else {
      assert s[|s| - 2] == rest[|rest| - 2];
    }
  }

  /** One slash at the end makes no difference. */
  lemma {:induction false} OneSlashIsDropped(s: string)
    requires s != "" && !EndsInSlash(s)
    ensures Split(s + "/") == Split(s)
    decreases |s|
  {
    var i, longer := Find(s, '/'), s + "/";
    assert longer[..i] == s[..i];
    FindIs(longer, '/', i);
    if i < |s| {
      PartAndRest(s);
      assert Rest(longer) == Rest(s) + "/";
      OneSlashIsDropped(Rest(s));
    } else {
      assert Rest(longer) == "" && Part(longer) == s == Part(s);
    }
  }

  predicate OnlySlashes(s: string) {
    forall i :: 0 <= i < |s| ==> s[i] == '/'
  }

  lemma {:induction false} PartsHaveNoSlash(s: string, part: string)
    requires part in Split(s)
    ensures '/' !in part
    decreases |s|
  {
    PartAndRest(s);
    if part != Part(s) { PartsHaveNoSlash(Rest(s), part); }
  }

  // ---------------------------------------------------------------- the descent, by definition

  function DropEmpty(path: seq<string>): (rest: seq<string>)
    ensures |rest| <= |path| && (rest == [] || rest[0] != "")
  {
    if path != [] && path[0] == "" then DropEmpty(path[1..]) else path
  }

  /** The non-empty segments. */
  function Segments(path: seq<string>): (segments: seq<string>)
    ensures |segments| <= |path| && "" !in segments
  {
    if path == [] then []
    else if path[0] == "" then Segments(path[1..])
    else [path[0]] + Segments(path[1..])
  }

  lemma SlashesStep(s: string)
    requires s != ""
    ensures OnlySlashes(s) <==> Part(s) == "" && OnlySlashes(Rest(s))
  {
    PartAndRest(s);
    if Part(s) == "" {
      assert forall i :: 0 <= i < |Rest(s)| ==> Rest(s)[i] == s[i + 1];
      assert forall i :: 0 < i < |s| ==> s[i] == Rest(s)[i - 1];
    } else {
      assert s[0] == Part(s)[0] && Part(s)[0] in Part(s);
    }
  }

  lemma {:induction false} NoSegmentsIff(s: string)
    ensures Segments(Split(s)) == [] <==> OnlySlashes(s)
    decreases |s|
  {
    if s != "" {
      SlashesStep(s);
      NoSegmentsIff(Rest(s));
      assert Split(s)[1..] == Split(Rest(s));
    }
  }

  /** The number of the first handler that matches, or of handlers if there is none. */
  function FirstMatch(handlers: seq<Handler>, segment: string): (i: nat)
    ensures i <= |handlers|
    ensures i < |handlers| ==> handlers[i].matches(segment)
    ensures forall j :: 0 <= j < i ==> !handlers[j].matches(segment)
  {
    if handlers == [] || handlers[0].matches(segment) then 0 else 1 + FirstMatch(handlers[1..], segment)
  }

  datatype Stop = AtHandler(handler: Handler, rest: seq<string>) | TargetEmpty | Unmatched

  /** The handlers passed on the way down, whatever they say about authentication, and where the
      descent stops. */
  datatype Descent = Descent(chain: seq<Handler>, stop: Stop)

  function Descend(handlers: seq<Handler>, path: seq<string>): Descent
    decreases |path|, 0
  {
    var p := DropEmpty(path);
    if p == [] then Descent([], TargetEmpty)
    else
      var i := FirstMatch(handlers, p[0]);
      if i == |handlers| then Descent([], Unmatched)
      else DescendFrom(handlers[i], p[1..])
  }

  /** The descent below a handler that has been chosen for a segment. */
  function DescendFrom(h: Handler, rest: seq<string>): Descent
    decreases |rest|, 1
  {
    if h.children == [] || rest == [] then Descent([h], AtHandler(h, rest))
    else
      var below := Descend(h.children, rest);
      Descent([h] + below.chain, below.stop)
  }

  // ---------------------------------------------------------------- authentication

  const SCHEME_LENGTH: nat := 6

  datatype Credentials = Credentials(username: string, password: string)

  /** Without a colon both parts are the whole text. */
  function ReadCredentials(text: string): Credentials {
    var i := Find(text, ':');
    if i < |text| then Credentials(text[..i], text[i + 1..]) else Credentials(text, text)
  }

  lemma CredentialsRoundTrip(username: string, password: string)
    ensures ReadCredentials(username + ":" + password) == Credentials(username, password) <==> ':' !in username
  {
    var text := username + ":" + password;
    if ':' !in username {
      assert text[..|username|] == username && text[|username| + 1..] == password;
      FindIs(text, ':', |username|);
    } else {
      assert text[|username|] == ':' && ':' in text;
      assert ':' !in ReadCredentials(text).username;
    }
  }

  /** None if the handler lets the request pass, otherwise the answer. */
  function Refusal(h: Handler, req: Request, decode: string -> string): Option<Outcome> {
    if !h.requiresAuth then None
    else if req.authorization == "" then Some(NeedAuthorisation)
    else if |req.authorization| < SCHEME_LENGTH then Some(Threw)
    else
      var c := ReadCredentials(decode(req.authorization[SCHEME_LENGTH..]));
      if h.authenticate(req, c.username, c.password) then None else Some(AuthorisationFailed(c.username))
  }

  function StopOutcome(stop: Stop): Outcome {
    match stop
    case AtHandler(handler, rest) => Handled(handler, rest)
    case TargetEmpty => EmptyTarget
    case Unmatched => NoMatch
  }

  /** The first handler on the chain that refuses decides, and only if none does, where it ends. */
  function Judge(d: Descent, req: Request, decode: string -> string): Outcome
    decreases |d.chain|
  {
    if d.chain == [] then StopOutcome(d.stop)
    else match Refusal(d.chain[0], req, decode)
      case Some(answer) => answer
      case None => Judge(Descent(d.chain[1..], d.stop), req, decode)
  }

  predicate DotDot(s: string) {
    exists i :: 0 <= i < |s| - 1 && s[i] == '.' && s[i + 1] == '.'
  }

  function Route(req: Request, handlers: seq<Handler>, decode: string -> string): Outcome {
    if req.target == "" || req.target[0] != '/' || DotDot(req.target) then BadTarget
    else if handlers == [] then NoHandlerInstalled
    else Judge(Descend(handlers, Split(req.target)), req, decode)
  }

  // ---------------------------------------------------------------- the three overloads

  /** The parts read so far and those still to come. */
  function Reading(path: seq<string>, stream: string): seq<string> {
    path + Split(stream)
  }

  lemma TakeOne(path: seq<string>, stream: string)
    requires stream != ""
    ensures Reading(path, stream) == Reading(path + [Part(stream)], Rest(stream))
  {
  }

  lemma ReadAll(path: seq<string>)
    ensures Reading(path, "") == path
  {
  }

  lemma ReadNone(target: string)
    ensures Reading([], target) == Split(target)
  {
  }

  /** Reading the target part by part. */
  method SplitTarget(target: string) returns (path: seq<string>)
    ensures path == Split(target)
  {
    path := [];
    var stream := target;
    ReadNone(target);
    while stream != ""
      invariant Reading(path, stream) == Split(target)
      decreases |stream|
    {
      TakeOne(path, stream);
      path, stream := path + [Part(stream)], Rest(stream);
    }
    ReadAll(path);
  }

  /** `handle(req)`: checks, splitting the target, and the descent from the top. */
  method Handle(req: Request, handlers: seq<Handler>, decode: string -> string) returns (r: Outcome)
    ensures r == Route(req, handlers, decode)
  {
    if req.target == "" || req.target[0] != '/' || DotDot(req.target) {
      return BadTarget;
    }
    if handlers == [] {
      return NoHandlerInstalled;
    }
    var path := SplitTarget(req.target);
    r := HandleSiblings(req, path, handlers, decode);
  }

  /** `handle(req, path, handlers)`: skip empty segments, then the first sibling that matches. */
  method HandleSiblings(req: Request, path: seq<string>, handlers: seq<Handler>, decode: string -> string)
    returns (r: Outcome)
    ensures r == Judge(Descend(handlers, path), req, decode)
    decreases |path|, 1
  {
    var queue := path;
    while queue != [] && queue[0] == ""
      invariant DropEmpty(queue) == DropEmpty(path) && |queue| <= |path|
      decreases |queue|
    {
      queue := queue[1..];
    }
    if queue == [] {
      return EmptyTarget;
    }
    var i := 0;
    while i < |handlers|
      invariant i <= |handlers| && forall j :: 0 <= j < i ==> !handlers[j].matches(queue[0])
    {
      if handlers[i].matches(queue[0]) {
        r := HandleOne(req, queue, handlers[i], decode);
        assert FirstMatch(handlers, queue[0]) == i;
        return;
      }
      i := i + 1;
    }
    return NoMatch;
  }

  /** `handle(req, path, handler)`: authenticate, then run the handler or go on to its children. */
  method HandleOne(req: Request, path: seq<string>, h: Handler, decode: string -> string) returns (r: Outcome)
    requires path != []
    ensures r == Judge(DescendFrom(h, path[1..]), req, decode)
    decreases |path|, 0
  {
    var queue := path[1..];
    if h.requiresAuth {
      if req.authorization == "" {
        return NeedAuthorisation;
      }
      if |req.authorization| < SCHEME_LENGTH {
        return Threw;
      }
      var auth := decode(req.authorization[SCHEME_LENGTH..]);
      var delimiter := Find(auth, ':');
      var username := if delimiter < |auth| then auth[..delimiter] else auth;
      var password := if delimiter < |auth| then auth[delimiter + 1..] else auth;
      if !h.authenticate(req, username, password) {
        return AuthorisationFailed(username);
      }
    }
    if h.children == [] || queue == [] {
      return Handled(h, queue);
    }
    r := HandleSiblings(req, queue, h.children, decode);
    var below := Descend(h.children, queue);
    assert ([h] + below.chain)[1..] == below.chain;
  }

  // ---------------------------------------------------------------- what routing promises

  /** h is the first of the siblings that matches. */
  ghost predicate IsFirstMatch(handlers: seq<Handler>, segment: string, h: Handler) {
    exists i :: 0 <= i < |handlers| && handlers[i] == h && h.matches(segment)
      && forall j :: 0 <= j < i ==> !handlers[j].matches(segment)
  }

  /** The chain of first matches for the non-empty segments of the path, and where it stops: at the
      first handler that has no children or is given nothing more, with what is left of the path; or
      because no segment is left, or no sibling matches. */
  ghost predicate Leads(handlers: seq<Handler>, path: seq<string>, chain: seq<Handler>, stop: Stop)
    decreases |chain|
  {
    var p := DropEmpty(path);
    if p == [] then chain == [] && stop == TargetEmpty
    else if chain == [] then stop == Unmatched && forall h :: h in handlers ==> !h.matches(p[0])
    else
      && IsFirstMatch(handlers, p[0], chain[0])
      && if chain[0].children == [] || p[1..] == [] then |chain| == 1 && stop == AtHandler(chain[0], p[1..])
         else Leads(chain[0].children, p[1..], chain[1..], stop)
  }

  lemma {:induction false} DropEmptyMeaning(path: seq<string>) returns (empty: seq<string>)
    ensures path == empty + DropEmpty(path)
    ensures forall segment :: segment in empty ==> segment == ""
  {
    empty := [];
    if path != [] && path[0] == "" {
      var more := DropEmptyMeaning(path[1..]);
      empty := [""] + more;
    }
  }

  lemma {:induction false} RouteIsTheDescent(handlers: seq<Handler>, path: seq<string>, chain: seq<Handler>, stop: Stop)
    ensures Leads(handlers, path, chain, stop) <==> Descend(handlers, path) == Descent(chain, stop)
    decreases |path|
  {
    var p := DropEmpty(path);
    if p != [] {
      var i := FirstMatch(handlers, p[0]);
      if i < |handlers| {
        var h := handlers[i];
        assert IsFirstMatch(handlers, p[0], h) && h in handlers;
        if chain != [] && IsFirstMatch(handlers, p[0], chain[0]) { assert chain[0] == h; }
        if h.children != [] && p[1..] != [] {
          RouteIsTheDescent(h.children, p[1..], if chain == [] then [] else chain[1..], stop);
          ChainSplits(h, Descend(h.children, p[1..]).chain, chain);
        }
      }
    }
  }

  lemma ChainSplits(h: Handler, below: seq<Handler>, chain: seq<Handler>)
    ensures chain == [h] + below <==> chain != [] && chain[0] == h && chain[1..] == below
  {
  }

  /** A text names a user and a password: parted by its first colon, or both the whole text without. */
  predicate Reads(text: string, user: string, password: string) {
    || (':' !in user && text == user + ":" + password)
    || (':' !in text && user == text && password == text)
  }

  lemma ReadsOne(text: string, user: string, password: string)
    ensures Reads(text, user, password) <==> ReadCredentials(text) == Credentials(user, password)
  {
    if Reads(text, user, password) && ':' in text {
      CredentialsRoundTrip(user, password);
    }
    if ReadCredentials(text) == Credentials(user, password) && ':' in text {
      assert text == text[..Find(text, ':')] + ":" + text[Find(text, ':') + 1..];
    }
  }

  /** The text that the field carries after the scheme. */
  function Carried(req: Request, decode: string -> string): string
    requires |req.authorization| >= 6
  {
    decode(req.authorization[6..])
  }

  /** The handler needs no authentication, or accepts the user and the password of the request. */
  ghost predicate Passes(h: Handler, req: Request, decode: string -> string) {
    h.requiresAuth ==>
      && |req.authorization| >= 6
      && exists user, password ::
           Reads(Carried(req, decode), user, password) && h.authenticate(req, user, password)
  }

  /** The handler rejects the user and the password of the request. */
  ghost predicate Rejects(h: Handler, req: Request, decode: string -> string, user: string) {
    && h.requiresAuth && |req.authorization| >= 6
    && exists password :: Reads(Carried(req, decode), user, password) && !h.authenticate(req, user, password)
  }

  /** Which answer a handler gives on the way down: none if it passes the request; no field, too short
      a field, or credentials that are not accepted otherwise. */
  lemma RefusalMeaning(h: Handler, req: Request, decode: string -> string)
    ensures Refusal(h, req, decode) == None <==> Passes(h, req, decode)
    ensures Refusal(h, req, decode) == Some(NeedAuthorisation) <==> h.requiresAuth && req.authorization == ""
    ensures Refusal(h, req, decode) == Some(Threw) <==> h.requiresAuth && 0 < |req.authorization| < 6
    ensures forall user :: Refusal(h, req, decode) == Some(AuthorisationFailed(user)) <==>
                           Rejects(h, req, decode, user)
  {
    if h.requiresAuth && |req.authorization| >= 6 {
      var text := Carried(req, decode);
      var c := ReadCredentials(text);
      ReadsOne(text, c.username, c.password);
      forall user, password | Reads(text, user, password) ensures user == c.username && password == c.password {
        ReadsOne(text, user, password);
      }
    }
  }

  ghost predicate AllPass(chain: seq<Handler>, req: Request, decode: string -> string) {
    forall k :: 0 <= k < |chain| ==> Passes(chain[k], req, decode)
  }

  lemma AllPassStep(chain: seq<Handler>, req: Request, decode: string -> string)
    requires chain != []
    ensures AllPass(chain, req, decode) <==> Passes(chain[0], req, decode) && AllPass(chain[1..], req, decode)
  {
    if AllPass(chain[1..], req, decode) && Passes(chain[0], req, decode) {
      assert forall k :: 0 < k < |chain| ==> chain[k] == chain[1..][k - 1];
    }
    if AllPass(chain, req, decode) {
      assert forall k :: 0 <= k < |chain[1..]| ==> chain[1..][k] == chain[k + 1];
    }
  }

  /** The answer when no handler on the chain refuses. */
  lemma {:induction false} JudgeHandles(d: Descent, req: Request, decode: string -> string)
    ensures Judge(d, req, decode).Handled? ==> AllPass(d.chain, req, decode)
    ensures AllPass(d.chain, req, decode) ==>
            Judge(d, req, decode) == match d.stop
              case AtHandler(handler, rest) => Handled(handler, rest)
              case TargetEmpty => EmptyTarget
              case Unmatched => NoMatch
    decreases |d.chain|
  {
    if d.chain != [] {
      RefusalMeaning(d.chain[0], req, decode);
      AllPassStep(d.chain, req, decode);
      JudgeHandles(Descent(d.chain[1..], d.stop), req, decode);
    }
  }

  /** A handler's callback runs, with what is left of the path, exactly when it ends a chain of
      first-matching siblings and every handler on that chain that demands it has authenticated the
      request. */
  lemma HandlerRunsIff(handlers: seq<Handler>, path: seq<string>, h: Handler, rest: seq<string>,
                       req: Request, decode: string -> string)
    ensures Judge(Descend(handlers, path), req, decode) == Handled(h, rest) <==>
            exists chain :: Leads(handlers, path, chain, AtHandler(h, rest)) && AllPass(chain, req, decode)
  {
    var d := Descend(handlers, path);
    RouteIsTheDescent(handlers, path, d.chain, d.stop);
    JudgeHandles(d, req, decode);
    forall chain | Leads(handlers, path, chain, AtHandler(h, rest)) ensures d == Descent(chain, AtHandler(h, rest)) {
      RouteIsTheDescent(handlers, path, chain, AtHandler(h, rest));
    }
  }

  /** The answer that goes out when the handler does not let the request pass. */
  ghost predicate Refuses(h: Handler, req: Request, decode: string -> string, answer: Outcome) {
    if req.authorization == "" then answer == NeedAuthorisation
    else if |req.authorization| < 6 then answer == Threw
    else answer.AuthorisationFailed? && Rejects(h, req, decode, answer.username)
  }

  /** Otherwise the first handler on the chain that refuses gives the answer. */
  lemma {:induction false} FirstRefusalDecides(d: Descent, req: Request, decode: string -> string, k: nat)
    requires k < |d.chain| && !Passes(d.chain[k], req, decode) && AllPass(d.chain[..k], req, decode)
    ensures Refuses(d.chain[k], req, decode, Judge(d, req, decode))
    decreases k
  {
    RefusalMeaning(d.chain[0], req, decode);
    if k > 0 {
      assert d.chain[..k][0] == d.chain[0];
      assert d.chain[1..][..k - 1] == d.chain[..k][1..];
      AllPassStep(d.chain[..k], req, decode);
      FirstRefusalDecides(Descent(d.chain[1..], d.stop), req, decode, k - 1);
    } else {
      RefusedWith(d.chain[0], req, decode);
    }
  }

  lemma RefusedWith(h: Handler, req: Request, decode: string -> string)
    requires !Passes(h, req, decode)
    ensures Refusal(h, req, decode).Some? && Refuses(h, req, decode, Refusal(h, req, decode).value)
  {
    RefusalMeaning(h, req, decode);
  }

  /** Whether a target is looked at, and whether there is anything to look for. */
  lemma RouteMeaning(req: Request, handlers: seq<Handler>, decode: string -> string)
    ensures Route(req, handlers, decode) == BadTarget <==>
            req.target == "" || req.target[0] != '/' || exists a, b :: req.target == a + ".." + b
    ensures Route(req, handlers, decode) == NoHandlerInstalled <==> WellFormed(req.target) && handlers == []
  {
    DotDotMeaning(req.target);
    JudgedOnly(Descend(handlers, Split(req.target)), req, decode);
  }

  lemma DotDotMeaning(s: string)
    ensures DotDot(s) <==> exists a, b :: s == a + ".." + b
  {
    if DotDot(s) {
      var i :| 0 <= i < |s| - 1 && s[i] == '.' && s[i + 1] == '.';
      assert s == s[..i] + ".." + s[i + 2..];
    }
    if a, b :| s == a + ".." + b {
      assert s[|a|] == '.' && s[|a| + 1] == '.';
    }
  }

  lemma {:induction false} JudgedOnly(d: Descent, req: Request, decode: string -> string)
    ensures Judge(d, req, decode) != BadTarget && Judge(d, req, decode) != NoHandlerInstalled
    decreases |d.chain|
  {
    if d.chain != [] { JudgedOnly(Descent(d.chain[1..], d.stop), req, decode); }
  }

  /** A request that is answered by a handler was authenticated at every handler on its way that asks
      for it: with an authorization field, and with the user and password that it carries. */
  lemma HandledMeansAuthenticated(req: Request, handlers: seq<Handler>, decode: string -> string, k: nat)
    requires Route(req, handlers, decode).Handled?
    requires k < |Descend(handlers, Split(req.target)).chain|
    requires Descend(handlers, Split(req.target)).chain[k].requiresAuth
    ensures |req.authorization| >= 6
    ensures exists user, password :: && Reads(Carried(req, decode), user, password)
              && Descend(handlers, Split(req.target)).chain[k].authenticate(req, user, password)
  {
    JudgeHandles(Descend(handlers, Split(req.target)), req, decode);
    assert Passes(Descend(handlers, Split(req.target)).chain[k], req, decode);
  }

  // ---------------------------------------------------------------- empty segments

  lemma {:induction false} DropEmptyKeepsSegments(path: seq<string>)
    ensures Segments(DropEmpty(path)) == Segments(path)
    ensures path != [] && path[|path| - 1] != "" ==>
      var p := DropEmpty(path); p != [] && p[|p| - 1] == path[|path| - 1]
  {
    if path != [] && path[0] == "" { DropEmptyKeepsSegments(path[1..]); }
  }

  ghost predicate SameStop(a: Stop, b: Stop) {
    match a
    case AtHandler(handler, rest) => b == AtHandler(handler, Segments(rest))
    case TargetEmpty => b == TargetEmpty
    case Unmatched => b == Unmatched
  }

  /** If the last segment is not empty, leaving out all empty segments changes neither the chain of
      handlers nor where it stops; a handler is given its remaining segments without the empty ones. */
  lemma {:induction false} EmptySegmentsDoNotMatter(handlers: seq<Handler>, path: seq<string>)
    requires path != [] ==> path[|path| - 1] != ""
    ensures Descend(handlers, Segments(path)).chain == Descend(handlers, path).chain
    ensures SameStop(Descend(handlers, path).stop, Descend(handlers, Segments(path)).stop)
    decreases |path|
  {
    var p := DropEmpty(path);
    DropEmptyKeepsSegments(path);
    if p != [] {
      var segments := Segments(path);
      assert segments == [p[0]] + Segments(p[1..]) && segments[1..] == Segments(p[1..]);
      var i := FirstMatch(handlers, p[0]);
      if i < |handlers| && p[1..] != [] {
        LastSegmentStays(p[1..]);
        if handlers[i].children != [] {
          EmptySegmentsDoNotMatter(handlers[i].children, p[1..]);
        }
      }
    }
  }

  lemma {:induction false} LastSegmentStays(path: seq<string>)
    requires path != [] && path[|path| - 1] != ""
    ensures Segments(path) != []
  {
    if |path| > 1 { LastSegmentStays(path[1..]); }
  }

  /** The same handler, or the same error. */
  ghost predicate SameAnswer(a: Outcome, b: Outcome) {
    a == b || (a.Handled? && b.Handled? && a.handler == b.handler)
  }

  lemma {:induction false} SameDescentSameAnswer(a: Descent, b: Descent, req: Request, decode: string -> string)
    requires a.chain == b.chain && SameStop(a.stop, b.stop)
    ensures SameAnswer(Judge(a, req, decode), Judge(b, req, decode))
    decreases |a.chain|
  {
    if a.chain != [] {
      SameDescentSameAnswer(Descent(a.chain[1..], a.stop), Descent(b.chain[1..], b.stop), req, decode);
    }
  }

  /** So a request is answered by the same handler, or refused with the same error. */
  lemma EmptySegmentsSameAnswer(handlers: seq<Handler>, path: seq<string>, req: Request, decode: string -> string)
    requires path != [] ==> path[|path| - 1] != ""
    ensures SameAnswer(Judge(Descend(handlers, path), req, decode),
                       Judge(Descend(handlers, Segments(path)), req, decode))
  {
    EmptySegmentsDoNotMatter(handlers, path);
    SameDescentSameAnswer(Descend(handlers, path), Descend(handlers, Segments(path)), req, decode);
  }

  /** Handlers that match everything, n levels below the first. */
  function Tower(n: nat): seq<Handler>
    ensures Tower(n) != []
  {
    [Handler(_ => true, false, (_, _, _) => true, if n == 0 then [] else Tower(n - 1))]
  }

  /** With an empty last segment it does matter: whatever the non-empty segments are, some tree of
      handlers answers them, and rejects the path as empty. */
  lemma {:induction false} TrailingEmptySegmentMatters(path: seq<string>)
    requires path != [] && path[|path| - 1] == "" && Segments(path) != []
    ensures var handlers := Tower(|Segments(path)|);
      Descend(handlers, path).stop == TargetEmpty && Descend(handlers, Segments(path)).stop.AtHandler?
    decreases |path|
  {
    var p, n := DropEmpty(path), |Segments(path)|;
    DropEmptyKeepsSegments(path);
    DropEmptyKeepsEnd(path);
    var handlers := Tower(n);
    assert FirstMatch(handlers, p[0]) == 0;
    assert handlers[0].children == Tower(n - 1);
    var segments := Segments(path);
    assert segments == [p[0]] + Segments(p[1..]) && segments[1..] == Segments(p[1..]);
    if n > 1 {
      TrailingEmptySegmentMatters(p[1..]);
    } else {
      NoSegmentsMeansEmpty(p[1..]);
      assert Descend(handlers[0].children, p[1..]).stop == TargetEmpty;
      assert Descend(handlers, path) == DescendFrom(handlers[0], p[1..]);
    }
  }

  lemma {:induction false} TowerPasses(n: nat, path: seq<string>, req: Request, decode: string -> string)
    ensures AllPass(Descend(Tower(n), path).chain, req, decode)
    decreases |path|
  {
    var p, h := DropEmpty(path), Tower(n)[0];
    if p != [] {
      assert FirstMatch(Tower(n), p[0]) == 0;
      if h.children != [] && p[1..] != [] {
        TowerPasses(n - 1, p[1..], req, decode);
      }
    }
  }

  predicate WellFormed(target: string) {
    target != "" && target[0] == '/' && !DotDot(target)
  }

  /** The answer to a request is the one that its non-empty segments get. */
  ghost predicate SegmentsDecide(req: Request, handlers: seq<Handler>, decode: string -> string) {
    SameAnswer(Route(req, handlers, decode), Judge(Descend(handlers, Segments(Split(req.target))), req, decode))
  }

  lemma SegmentsDecideUnless(req: Request, handlers: seq<Handler>, decode: string -> string)
    requires WellFormed(req.target) && handlers != []
    requires OnlySlashes(req.target) || !EndsInTwoSlashes(req.target)
    ensures SegmentsDecide(req, handlers, decode)
  {
    var path := Split(req.target);
    NoSegmentsIff(req.target);
    LastPartIsEmptyIff(req.target);
    if Segments(path) == [] {
      NoSegmentsMeansEmpty(path);
    } else {
      EmptySegmentsSameAnswer(handlers, path, req, decode);
    }
  }

  lemma TwoSlashesAreRejected(req: Request, decode: string -> string)
    requires WellFormed(req.target) && EndsInTwoSlashes(req.target) && !OnlySlashes(req.target)
    ensures !SegmentsDecide(req, Tower(|Segments(Split(req.target))|), decode)
  {
    var path := Split(req.target);
    var handlers := Tower(|Segments(path)|);
    NoSegmentsIff(req.target);
    LastPartIsEmptyIff(req.target);
    TrailingEmptySegmentMatters(path);
    TowerPasses(|Segments(path)|, Segments(path), req, decode);
    JudgeHandles(Descend(handlers, path), req, decode);
    JudgeHandles(Descend(handlers, Segments(path)), req, decode);
  }

  /** For a well-formed target the empty segments do not matter, whatever the handlers, the
      authorization and the decoder are, exactly unless it ends in two slashes and holds anything
      else. */
  lemma EmptySegmentsMatterIff(target: string)
    requires WellFormed(target)
    ensures (forall authorization, handlers, decode :: handlers != [] ==>
               SegmentsDecide(Request(target, authorization), handlers, decode))
      <==> OnlySlashes(target) || !EndsInTwoSlashes(target)
  {
    if OnlySlashes(target) || !EndsInTwoSlashes(target) {
      forall authorization, handlers, decode | handlers != []
        ensures SegmentsDecide(Request(target, authorization), handlers, decode)
      {
        SegmentsDecideUnless(Request(target, authorization), handlers, decode);
      }
    } else {
      TwoSlashesAreRejected(Request(target, ""), text => text);
    }
  }

  lemma SplitOf(s: string, part: string, rest: string)
    requires s == part + "/" + rest && '/' !in part
    ensures Split(s) == [part] + Split(rest)
  {
    assert s[..|part|] == part && s[|part| + 1..] == rest;
    FindIs(s, '/', |part|);
  }

  lemma SplitWhole(part: string)
    requires part != "" && '/' !in part
    ensures Split(part) == [part]
  {
    PartAndRest(part);
  }

  lemma SplitOneSlash()
    ensures Split("/") == [""]
  {
    PartAndRest("/");
  }

  lemma SplitAfterSlash(rest: string)
    ensures Split("/" + rest) == [""] + Split(rest)
  {
    SplitOf("/" + rest, "", rest);
  }

  /** One segment after a slash, and what ends it. */
  function Target(segment: string, end: string): string {
    "/" + (segment + end)
  }

  lemma SplitTail(segment: string, end: string)
    requires segment != "" && '/' !in segment && (end == "" || end == "/" || end == "//")
    ensures Split(segment + end) == if end == "//" then [segment, ""] else [segment]
  {
    if end == "" {
      assert segment + end == segment;
      SplitWhole(segment);
    } else if end == "/" {
      SplitOf(segment + end, segment, "");
    } else {
      SplitOf(segment + end, segment, "/");
      SplitOneSlash();
    }
  }

  lemma SplitOneSegment(segment: string, end: string)
    requires segment != "" && '/' !in segment && (end == "" || end == "/" || end == "//")
    ensures Split(Target(segment, end)) == ["", segment] + if end == "//" then [""] else []
  {
    SplitTail(segment, end);
    SplitAfterSlash(segment + end);
  }

  lemma DotsOf(segment: string, end: string)
    requires '/' !in segment && !DotDot(segment) && (end == "" || end == "/" || end == "//")
    ensures WellFormed(Target(segment, end))
  {
    var target := Target(segment, end);
    forall i | 0 <= i < |target| - 1 ensures !(target[i] == '.' && target[i + 1] == '.') {
      if 0 < i < |segment| { assert target[i] == segment[i - 1] && target[i + 1] == segment[i]; }
    }
  }

  /** With a handler that has a child, a target of one segment is answered with and without a slash at
      the end, and is not with two: "/a" and "/a/", but not "/a//". */
  lemma DoubleSlashIsRejected(segment: string, end: string, authorization: string, decode: string -> string)
    requires segment != "" && '/' !in segment && !DotDot(segment)
    requires end == "" || end == "/" || end == "//"
    ensures var r := Route(Request(Target(segment, end), authorization), Tower(1), decode);
            if end == "//" then r == EmptyTarget else r.Handled?
  {
    SplitOneSegment(segment, end);
    DotsOf(segment, end);
    RouteOf(segment, if end == "//" then [""] else [], Request(Target(segment, end), authorization), decode);
  }

  lemma RouteOf(segment: string, rest: seq<string>, req: Request, decode: string -> string)
    requires segment != "" && (rest == [] || rest == [""])
    ensures var r := Judge(Descend(Tower(1), ["", segment] + rest), req, decode);
            if rest == [] then r.Handled? else r == EmptyTarget
  {
    var h, path := Tower(1)[0], ["", segment] + rest;
    assert path[1..][1..] == rest;
    assert DropEmpty(path) == path[1..] && FirstMatch(Tower(1), segment) == 0 && h.children == Tower(0);
    assert [h] + [] == [h] && [h][1..] == [];
    if rest == [] {
      assert Descend(Tower(1), path) == Descent([h], AtHandler(h, []));
    } else {
      NoSegmentsMeansEmpty(rest);
      assert Descend(Tower(0), rest) == Descent([], TargetEmpty);
      assert Descend(Tower(1), path) == Descent([h], TargetEmpty);
    }
  }

  lemma {:induction false} DropEmptyKeepsEnd(path: seq<string>)
    requires path != [] && path[|path| - 1] == "" && Segments(path) != []
    ensures var p := DropEmpty(path); |p| > 1 && p[|p| - 1] == ""
  {
    if path[0] == "" { DropEmptyKeepsEnd(path[1..]); }
  }

  lemma {:induction false} NoSegmentsMeansEmpty(path: seq<string>)
    requires Segments(path) == []
    ensures DropEmpty(path) == []
  {
    if path != [] && path[0] == "" { NoSegmentsMeansEmpty(path[1..]); }
  }
}
