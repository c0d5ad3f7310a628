/**
 * A client's scope grant: entries of the form `application:permission`
 * matched against a space-separated request for one application.
 */
module Clients {
  import opened Wrappers
  import opened Strings

  /** A client record as the persistence layer supplies it; `id` is the UUID's text. */
  datatype Client = Client(id: Bytes, clientName: Bytes, email: Bytes, allowedScopes: seq<Bytes>)
  {
    /**
     * `HasAllowedScopes`: every requested token needs an allowed entry for
     * `appName` with the same permission; the first unmatched token decides
     * false. An entry without ':' (always) or a requested token without ':'
     * (once an entry for `appName` is reached) indexes past the end of its
     * split, which is IndexOutOfRange here.
     */
    method HasAllowedScopes(scope: Bytes, appName: Bytes) returns (r: ScopeCheck)
      ensures r == ScopeDecision(allowedScopes, Split(scope, SPACE), appName)
      ensures WellFormed(allowedScopes) && WellFormed(Split(scope, SPACE)) ==>
        r == Decided(Granted(allowedScopes, Split(scope, SPACE), appName))
    {
      var requestedScopes := Split(scope, SPACE);
      var i := 0;
      while i < |requestedScopes|
        invariant 0 <= i <= |requestedScopes|
        invariant ScopeDecision(allowedScopes, requestedScopes, appName)
               == ScopeDecision(allowedScopes, requestedScopes[i..], appName)
      {
        var requestedScope := requestedScopes[i];
        var scopeAllowed := false;
        var j := 0;
        while j < |allowedScopes|
          invariant 0 <= j <= |allowedScopes|
          invariant Search(allowedScopes, requestedScope, appName)
                 == Search(allowedScopes[j..], requestedScope, appName)
        {
          var allowedFields := Split(allowedScopes[j], COLON);
          var app := allowedFields[0];
          if |allowedFields| < 2 {
            r := IndexOutOfRange;
            Unfold(allowedScopes, requestedScopes, i, appName);
            return;
          }
          var permission := allowedFields[1];
          if app == appName {
            var requestedFields := Split(requestedScope, COLON);
            if |requestedFields| < 2 {
              r := IndexOutOfRange;
              Unfold(allowedScopes, requestedScopes, i, appName);
              return;
            }
            if permission == requestedFields[1] {
              scopeAllowed := true;
              break;
            }
          }
          assert allowedScopes[j..][1..] == allowedScopes[j + 1..];
          j := j + 1;
        }
        if !scopeAllowed {
          r := Decided(false);
          Unfold(allowedScopes, requestedScopes, i, appName);
          DecisionComplete(allowedScopes, Split(scope, SPACE), appName);
          return;
        }
        Unfold(allowedScopes, requestedScopes, i, appName);
        i := i + 1;
      }
      r := Decided(true);
      DecisionComplete(allowedScopes, Split(scope, SPACE), appName);
    }

    /**
     * `CheckApps`: nil when every allowed entry names an application in
     * `appNames`; otherwise the error names the first entry's application
     * that is missing, in list order.
     */
    method CheckApps(appNames: seq<Bytes>) returns (err: Option<Bytes>)
      ensures err.None? <==> forall k :: 0 <= k < |allowedScopes| ==> AppOf(allowedScopes[k]) in appNames
      ensures err.Some? ==> err.value !in appNames
      ensures err.Some? ==>
        exists k :: 0 <= k < |allowedScopes| && err.value == AppOf(allowedScopes[k]) &&
          forall m :: 0 <= m < k ==> AppOf(allowedScopes[m]) in appNames
    {
      var i := 0;
      while i < |allowedScopes|
        invariant 0 <= i <= |allowedScopes|
        invariant forall m :: 0 <= m < i ==> AppOf(allowedScopes[m]) in appNames
      {
        var app := Split(allowedScopes[i], COLON)[0];
        var known := Contains(appNames, app);
        if !known {
          return Some(app);
        }
        i := i + 1;
      }
      return None;
    }
  }

  /** `contains`: a linear scan for an equal element. */
  method Contains(slice: seq<Bytes>, element: Bytes) returns (found: bool)
    ensures found <==> element in slice
  {
    var i := 0;
    while i < |slice|
      invariant 0 <= i <= |slice|
      invariant element !in slice[..i]
    {
      if slice[i] == element {
        return true;
      }
      i := i + 1;
    }
    assert slice[..i] == slice;
    return false;
  }

  /** The application part of an entry: the text before its first ':'. */
  function AppOf(entry: Bytes): Bytes
  {
    Split(entry, COLON)[0]
  }

  /** The permission part: the text between the first and a second ':' (index 1 of the split). */
  function PermissionOf(entry: Bytes): Bytes
    requires COLON in entry
  {
    SplitHasSecond(entry, COLON);
    Split(entry, COLON)[1]
  }

  /** A split has a second piece exactly when the separator occurs. */
  lemma {:induction false} SplitHasSecond(s: Bytes, sep: byte)
    ensures |Split(s, sep)| >= 2 <==> sep in s
  {
    if s != [] {
      SplitHasSecond(s[1..], sep);
      assert s == [s[0]] + s[1..];
    }
  }

  /** Every entry has the `application:permission` shape, so index 1 of its split exists. */
  predicate WellFormed(scopes: seq<Bytes>)
  {
    forall k :: 0 <= k < |scopes| ==> COLON in scopes[k]
  }

  /** An allowed entry grants a requested token for `appName`: same application, same permission. */
  predicate Grants(entry: Bytes, requested: Bytes, appName: Bytes)
  {
    COLON in entry && COLON in requested && AppOf(entry) == appName
      && PermissionOf(entry) == PermissionOf(requested)
  }

  /** Every requested token is granted by some allowed entry. */
  predicate Granted(allowed: seq<Bytes>, requested: seq<Bytes>, appName: Bytes)
  {
    forall i :: 0 <= i < |requested| ==>
      exists j :: 0 <= j < |allowed| && Grants(allowed[j], requested[i], appName)
  }

  datatype ScopeCheck = Decided(allowed: bool) | IndexOutOfRange

  datatype Step = Panics | Matches | Passes

  datatype Found = Found | NotFound | SearchPanics

  /** What the inner loop does with one allowed entry, in the order the source evaluates it. */
  function EntryStep(entry: Bytes, requested: Bytes, appName: Bytes): Step
  {
    SplitHasSecond(entry, COLON);
    SplitHasSecond(requested, COLON);
    if COLON !in entry then Panics
    else if AppOf(entry) != appName then Passes
    else if COLON !in requested then Panics
    else if PermissionOf(entry) == PermissionOf(requested) then Matches
    else Passes
  }

  /** The inner loop: the first entry that either panics or matches decides. */
  function Search(allowed: seq<Bytes>, requested: Bytes, appName: Bytes): Found
  {
    if allowed == [] then NotFound
    else match EntryStep(allowed[0], requested, appName)
      case Panics => SearchPanics
      case Matches => Found
      case Passes => Search(allowed[1..], requested, appName)
  }

  /** The outer loop: requested tokens in order; the first one not found decides. */
  function ScopeDecision(allowed: seq<Bytes>, requested: seq<Bytes>, appName: Bytes): ScopeCheck
  {
    if requested == [] then Decided(true)
    else match Search(allowed, requested[0], appName)
      case SearchPanics => IndexOutOfRange
      case NotFound => Decided(false)
      case Found => ScopeDecision(allowed, requested[1..], appName)
  }

  /** One step of the outer loop. */
  lemma Unfold(allowed: seq<Bytes>, requested: seq<Bytes>, i: nat, appName: Bytes)
    requires i < |requested|
    ensures ScopeDecision(allowed, requested[i..], appName) ==
      match Search(allowed, requested[i], appName)
      case SearchPanics => IndexOutOfRange
      case NotFound => Decided(false)
      case Found => ScopeDecision(allowed, requested[i + 1..], appName)
  {
    assert requested[i..][1..] == requested[i + 1..];
  }

  /** A token is found only through an entry that grants it. */
  lemma {:induction false} SearchSound(allowed: seq<Bytes>, requested: Bytes, appName: Bytes)
    ensures Search(allowed, requested, appName) == Found ==>
      exists j :: 0 <= j < |allowed| && Grants(allowed[j], requested, appName)
  {
    if allowed != [] && EntryStep(allowed[0], requested, appName) == Passes {
      SearchSound(allowed[1..], requested, appName);
      if Search(allowed, requested, appName) == Found {
        var j :| 0 <= j < |allowed[1..]| && Grants(allowed[1..][j], requested, appName);
        assert Grants(allowed[j + 1], requested, appName);
      }
    }
  }

  /** Over well-formed entries and a well-formed token the search never panics and finds exactly the granting entries. */
  lemma {:induction false} SearchComplete(allowed: seq<Bytes>, requested: Bytes, appName: Bytes)
    requires WellFormed(allowed) && COLON in requested
    ensures Search(allowed, requested, appName) != SearchPanics
    ensures Search(allowed, requested, appName) == Found <==>
      exists j :: 0 <= j < |allowed| && Grants(allowed[j], requested, appName)
  {
    SearchSound(allowed, requested, appName);
    if allowed != [] {
      SearchComplete(allowed[1..], requested, appName);
      if EntryStep(allowed[0], requested, appName) == Passes {
        assert !Grants(allowed[0], requested, appName);
        if exists j :: 0 <= j < |allowed| && Grants(allowed[j], requested, appName) {
          var j :| 0 <= j < |allowed| && Grants(allowed[j], requested, appName);
          assert j > 0 && Grants(allowed[1..][j - 1], requested, appName);
        }
      }
    }
  }

  /** A true decision means every requested token is granted: a partial grant never passes. */
  lemma {:induction false} DecisionSound(allowed: seq<Bytes>, requested: seq<Bytes>, appName: Bytes)
    ensures ScopeDecision(allowed, requested, appName) == Decided(true) ==> Granted(allowed, requested, appName)
  {
    if requested != [] && Search(allowed, requested[0], appName) == Found {
      SearchSound(allowed, requested[0], appName);
      DecisionSound(allowed, requested[1..], appName);
      if ScopeDecision(allowed, requested, appName) == Decided(true) {
        forall i | 0 <= i < |requested|
          ensures exists j :: 0 <= j < |allowed| && Grants(allowed[j], requested[i], appName)
        {
          if i > 0 { assert requested[i] == requested[1..][i - 1]; }
        }
      }
    }
  }

  /** Over well-formed entries and tokens the decision is made and is exactly the quantified grant. */
  lemma {:induction false} DecisionComplete(allowed: seq<Bytes>, requested: seq<Bytes>, appName: Bytes)
    ensures WellFormed(allowed) && WellFormed(requested) ==>
      ScopeDecision(allowed, requested, appName) == Decided(Granted(allowed, requested, appName))
  {
    if WellFormed(allowed) && WellFormed(requested) && requested != [] {
      SearchComplete(allowed, requested[0], appName);
      DecisionComplete(allowed, requested[1..], appName);
      DecisionSound(allowed, requested, appName);
      if Search(allowed, requested[0], appName) == Found {
        if Granted(allowed, requested[1..], appName) {
          forall i | 0 <= i < |requested|
            ensures exists j :: 0 <= j < |allowed| && Grants(allowed[j], requested[i], appName)
          {
            if i > 0 { assert requested[i] == requested[1..][i - 1]; }
          }
        } else {
          var i :| 0 <= i < |requested[1..]| && !exists j :: 0 <= j < |allowed| && Grants(allowed[j], requested[1..][i], appName);
          assert requested[1..][i] == requested[i + 1];
        }
      }
    }
  }

  /** With no allowed entries every request is refused, the empty request "" included. */
  lemma EmptyGrantRefuses(scope: Bytes, appName: Bytes)
    ensures ScopeDecision([], Split(scope, SPACE), appName) == Decided(false)
  {
  }

  /** Appending entries never turns an accepted request into a refused one. */
  lemma {:induction false} AppendKeepsGrant(allowed: seq<Bytes>, extra: seq<Bytes>, requested: seq<Bytes>, appName: Bytes)
    requires ScopeDecision(allowed, requested, appName) == Decided(true)
    ensures ScopeDecision(allowed + extra, requested, appName) == Decided(true)
  {
    if requested != [] {
      SearchAppend(allowed, extra, requested[0], appName);
      AppendKeepsGrant(allowed, extra, requested[1..], appName);
    }
  }

  lemma {:induction false} SearchAppend(allowed: seq<Bytes>, extra: seq<Bytes>, requested: Bytes, appName: Bytes)
    requires Search(allowed, requested, appName) == Found
    ensures Search(allowed + extra, requested, appName) == Found
  {
    assert (allowed + extra)[0] == allowed[0];
    if EntryStep(allowed[0], requested, appName) == Passes {
      assert (allowed + extra)[1..] == allowed[1..] + extra;
      SearchAppend(allowed[1..], extra, requested, appName);
    }
  }

  /** Two requested tokens with the same permission part are treated alike: the application part of a request is never compared. */
  lemma {:induction false} RequestedAppIgnored(allowed: seq<Bytes>, t: Bytes, u: Bytes, appName: Bytes)
    requires COLON in t && COLON in u && PermissionOf(t) == PermissionOf(u)
    ensures Search(allowed, t, appName) == Search(allowed, u, appName)
  {
    if allowed != [] {
      RequestedAppIgnored(allowed[1..], t, u, appName);
    }
  }

  /** An entry written as `app:perm` has application part `app` and permission part `perm`. */
  lemma EntryParts(app: Bytes, perm: Bytes)
    requires COLON !in app && COLON !in perm
    ensures var e := app + [COLON] + perm; COLON in e && AppOf(e) == app && PermissionOf(e) == perm
  {
    var e := app + [COLON] + perm;
    SplitPrefix(app, COLON, perm);
    SplitNoSeparator(perm, COLON);
    assert e[|app|] == COLON;
  }

  /** A request for `app:p` against the single entry `app:q` with another permission is refused. */
  lemma OtherPermissionRefused(app: Bytes, p: Bytes, q: Bytes)
    requires COLON !in app && COLON !in p && COLON !in q && SPACE !in app && SPACE !in p
    requires p != q
    ensures ScopeDecision([app + [COLON] + q], Split(app + [COLON] + p, SPACE), app) == Decided(false)
  {
    EntryParts(app, p);
    EntryParts(app, q);
    SplitNoSeparator(app + [COLON] + p, SPACE);
    DecisionComplete([app + [COLON] + q], [app + [COLON] + p], app);
  }

  /** The same request is granted once `app:p` is among the entries. */
  lemma SamePermissionGranted(app: Bytes, p: Bytes, q: Bytes)
    requires COLON !in app && COLON !in p && COLON !in q && SPACE !in app && SPACE !in p
    ensures ScopeDecision([app + [COLON] + p, app + [COLON] + q], Split(app + [COLON] + p, SPACE), app) == Decided(true)
  {
    EntryParts(app, p);
    EntryParts(app, q);
    SplitNoSeparator(app + [COLON] + p, SPACE);
    DecisionComplete([app + [COLON] + p, app + [COLON] + q], [app + [COLON] + p], app);
    assert Grants([app + [COLON] + p, app + [COLON] + q][0], app + [COLON] + p, app);
  }

  /** Two requested tokens against an entry that grants only the first: refused, as a partial grant is not enough. */
  lemma PartialGrantRefused(app: Bytes, p: Bytes, other: Bytes, q: Bytes)
    requires COLON !in app && COLON !in p && COLON !in other && COLON !in q
    requires SPACE !in app && SPACE !in p && SPACE !in other && SPACE !in q
    requires q != p
    ensures var first, second := app + [COLON] + p, other + [COLON] + q;
      ScopeDecision([first], Split(first + [SPACE] + second, SPACE), app) == Decided(false)
  {
    var first, second := app + [COLON] + p, other + [COLON] + q;
    EntryParts(app, p);
    EntryParts(other, q);
    assert SPACE !in first && SPACE !in second;
    assert Split(first + [SPACE] + second, SPACE) == [first, second] by {
      SplitPrefix(first, SPACE, second);
      SplitNoSeparator(second, SPACE);
    }
    assert Search([first], first, app) == Found;
    assert Search([first], second, app) == NotFound by {
      assert EntryStep(first, second, app) == Passes;
      assert [first][1..] == [];
    }
    assert [first, second][1..] == [second];
  }

  /**
   * A request naming another application is still granted by an entry for
   * `app` with the same permission, since the request's application part is
   * not compared.
   */
  lemma OtherApplicationRequestGranted(app: Bytes, other: Bytes, p: Bytes)
    requires COLON !in app && COLON !in other && COLON !in p
    requires SPACE !in other && SPACE !in p
    ensures ScopeDecision([app + [COLON] + p], Split(other + [COLON] + p, SPACE), app) == Decided(true)
  {
    var entry, requested := app + [COLON] + p, other + [COLON] + p;
    EntryParts(app, p);
    EntryParts(other, p);
    assert SPACE !in requested;
    SplitNoSeparator(requested, SPACE);
    assert EntryStep(entry, requested, app) == Matches;
    assert [requested][1..] == [];
  }
}
