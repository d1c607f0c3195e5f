/**
 The viewer's header: where the return button navigates, how the status
 update request to the contributor backend is classified, and which menu
 entries and toolbar it shows.
 */
module ViewerHeader {
  import opened Common

  // ---------------------------------------------------------------------------
  // The return button
  // ---------------------------------------------------------------------------

  /** A navigation: the target path and the query entries, in order. */
  datatype Navigation = Navigation(pathname: string, query: seq<(string, string)>)

  /** The index of the '/' that ends the first path segment, or -1. */
  function DataSourceIdx(pathname: string): int {
    IndexOfFrom(pathname, '/', 1)
  }

  /** `pathname.substring(idx + 1)`: what follows that '/', or the whole path when there is none. */
  function DataSourceName(pathname: string): (name: string)
    ensures DataSourceIdx(pathname) == -1 ==> name == pathname
    ensures DataSourceIdx(pathname) != -1 ==> pathname == pathname[..DataSourceIdx(pathname)] + "/" + name
  {
    var idx := DataSourceIdx(pathname);
    if idx == -1 then pathname
    else
      assert pathname == pathname[..idx] + "/" + pathname[idx + 1..];
      pathname[idx + 1..]
  }

  /**
   `onClickReturnButton`: navigate to the root, carrying the data source when
   the path names one the extension manager knows, and the configuration URL
   when the current query has a non-empty one. `dataSourceExists` stands for
   the extension manager's lookup.
   */
  function ReturnNavigation(pathname: string, configUrl: Option<string>, dataSourceExists: string -> bool): (nav: Navigation)
    ensures nav.pathname == "/"
    ensures |nav.query| <= 2
    ensures (exists i :: 0 <= i < |nav.query| && nav.query[i].0 == "datasources") <==>
      DataSourceIdx(pathname) != -1 && dataSourceExists(DataSourceName(pathname))
    ensures (exists i :: 0 <= i < |nav.query| && nav.query[i].0 == "configUrl") <==> Truthy(configUrl)
    ensures forall i :: 0 <= i < |nav.query| && nav.query[i].0 == "datasources" ==> i == 0 && nav.query[i].1 == DataSourceName(pathname)
    ensures forall i :: 0 <= i < |nav.query| && nav.query[i].0 == "configUrl" ==> i == |nav.query| - 1 && Some(nav.query[i].1) == configUrl
  {
    var idx := DataSourceIdx(pathname);
    var name := DataSourceName(pathname);
    var withSource := if idx != -1 && dataSourceExists(name) then [("datasources", name)] else [];
    var withConfig := if Truthy(configUrl) then [("configUrl", configUrl.value)] else [];
    var q := withSource + withConfig;
    assert "datasources" != "configUrl" by { assert "datasources"[0] != "configUrl"[0]; }
    assert |withSource| == 1 ==> q[0].0 == "datasources";
    assert |withConfig| == 1 ==> q[|q| - 1].0 == "configUrl";
    Navigation("/", q)
  }

  /**
   A viewer path `/<route>/<rest>` returns with `<rest>` as the data source
   when that source exists: the data source is recovered from the path the
   viewer was opened under.
   */
  lemma ReturnRecoversDataSource(route: string, rest: string, dataSourceExists: string -> bool)
    requires '/' !in route
    ensures DataSourceIdx("/" + route + "/" + rest) == |route| + 1
    ensures DataSourceName("/" + route + "/" + rest) == rest
    ensures dataSourceExists(rest) ==>
      ReturnNavigation("/" + route + "/" + rest, None, dataSourceExists).query == [("datasources", rest)]
  {
    var p := "/" + route + "/" + rest;
    assert p[|route| + 1] == '/';
    assert forall i :: 1 <= i < |route| + 1 ==> p[i] == route[i - 1];
    IndexOfFromUnique(p, '/', 1, |route| + 1);
    assert p[|route| + 2..] == rest;
  }

  /** A path with a single segment carries no data source: the whole path is looked up and then ignored. */
  lemma SingleSegmentHasNoDataSource(pathname: string, configUrl: Option<string>, dataSourceExists: string -> bool)
    requires forall i :: 1 <= i < |pathname| ==> pathname[i] != '/'
    ensures DataSourceName(pathname) == pathname
    ensures ReturnNavigation(pathname, configUrl, dataSourceExists).query ==
      if Truthy(configUrl) then [("configUrl", configUrl.value)] else []
  {
    IndexOfFromUnique(pathname, '/', 1, -1);
  }

  // ---------------------------------------------------------------------------
  // changeStatus
  // ---------------------------------------------------------------------------

  /** The backend's reply: its status and the outcome of reading its body as JSON. */
  datatype Reply<J> = Reply(status: int, json: Result<J>)

  const PostFailed := "Failed to post data"

  /**
   `changeStatus`: a request that fails, and any status other than 404 and
   202, becomes the single error "Failed to post data". On 404 and 202 the
   body is returned as read, so a body that is not JSON rejects with its own
   error rather than the wrapped one. `reply` is the fetch outcome (`None` when
   the request itself rejects).
   */
  function ChangeStatus<J>(reply: Option<Reply<J>>): (r: Result<J>)
    ensures reply.None? ==> r == Failure(PostFailed)
    ensures reply.Some? && (reply.value.status == 404 || reply.value.status == 202) ==> r == reply.value.json
    ensures reply.Some? && reply.value.status != 404 && reply.value.status != 202 ==> r == Failure(PostFailed)
  {
    match reply
    case None => Failure(PostFailed)
    case Some(rep) =>
      if rep.status == 404 then rep.json
      else if rep.status != 202 then Failure(PostFailed)
      else rep.json
  }

  /**
   The outcome classifies the status: a body comes back only on 404 or 202,
   and any error other than the wrapped one comes from reading a 404 or 202
   body.
   */
  lemma ChangeStatusClassifies<J>(reply: Option<Reply<J>>)
    ensures ChangeStatus(reply).Success? ==> reply.Some? && reply.value.status in {404, 202} && reply.value.json.Success?
    ensures ChangeStatus(reply).Failure? && ChangeStatus(reply).error != PostFailed ==>
      reply.Some? && reply.value.status in {404, 202} && reply.value.json == ChangeStatus(reply)
  {
  }

  // ---------------------------------------------------------------------------
  // Menu and toolbar
  // ---------------------------------------------------------------------------

  /** The menu entries: about and preferences, then logout when the app is configured for OpenID Connect. */
  function MenuOptions(oidc: bool): (titles: seq<string>)
    ensures |titles| >= 2 && titles[..2] == ["About", "Preferences"]
    ensures "Logout" in titles <==> oidc
    ensures oidc ==> titles[|titles| - 1] == "Logout"
  {
    ["About", "Preferences"] + (if oidc then ["Logout"] else [])
  }

  /** The toolbar shows unless the stored read-only flag is set. */
  function ShowsToolbar(stored: Option<Option<bool>>): (shown: bool)
    ensures shown <==> stored != Some(Some(true))
  {
    !ReadOnly(stored)
  }
}
