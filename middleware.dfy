/**
 * The request gate that runs before the matched pages: a decision over the
 * `token` cookie and the requested path. Only the presence of a non-empty
 * token is looked at, never its signature or expiry.
 */
module Middleware {
  import opened Wrappers

  datatype Decision = Redirect(target: string) | Next

  const LoginPath := "/login"
  const HomePath := "/"
  const EmployeePath := "/employee"

  /** The token cookie's value, or the empty text when there is no such cookie. */
  function TokenValue(cookie: Option<string>): string
  {
    if cookie.Some? then cookie.value else ""
  }

  /** The middleware's decision for a request. */
  function Decide(cookie: Option<string>, path: string): (d: Decision)
    ensures d == Redirect(LoginPath) <==> TokenValue(cookie) == "" && path != LoginPath
    ensures d == Redirect(HomePath) <==> TokenValue(cookie) != "" && path == LoginPath
    ensures d == Next <==> (TokenValue(cookie) == "" <==> path == LoginPath)
    ensures d.Redirect? ==> d.target != path
  {
    var token := TokenValue(cookie);
    if token == "" && path != LoginPath then Redirect(LoginPath)
    else if token != "" && path == LoginPath then Redirect(HomePath)
    else Next
  }

  /** The paths the middleware runs on: the home page, the login page, and the employee page with everything below it. */
  predicate Matched(path: string)
  {
    || path == HomePath
    || path == LoginPath
    || path == EmployeePath
    || (|path| > |EmployeePath| && path[..|EmployeePath| + 1] == EmployeePath + "/")
  }

  /** The matcher admits the three pages and exactly the paths that continue
      the employee page with a further segment. */
  lemma MatchedPaths(path: string)
    ensures Matched(path) <==>
              || path == HomePath
              || path == LoginPath
              || path == EmployeePath
              || exists rest :: path == EmployeePath + "/" + rest
  {
    var prefix := EmployeePath + "/";
    if |path| > |EmployeePath| && path[..|prefix|] == prefix {
      assert path == prefix + path[|prefix|..];
    }
    if exists rest :: path == prefix + rest {
      var rest :| path == prefix + rest;
      assert path[..|prefix|] == prefix;
    }
  }

  /** What a request meets: the middleware on matched paths, nothing elsewhere. */
  function Gate(cookie: Option<string>, path: string): (d: Decision)
    ensures !Matched(path) ==> d == Next
    ensures d == Redirect(LoginPath) <==> Matched(path) && TokenValue(cookie) == "" && path != LoginPath
    ensures d == Redirect(HomePath) <==> TokenValue(cookie) != "" && path == LoginPath
    ensures d == Next <==> !Matched(path) || (TokenValue(cookie) == "" <==> path == LoginPath)
  {
    if Matched(path) then Decide(cookie, path) else Next
  }

  /** A missing cookie and an empty one are treated alike. */
  lemma AbsentCookieIsEmptyCookie(path: string)
    ensures Gate(None, path) == Gate(Some(""), path)
  {
  }

  /** Any non-empty token counts as signed in, whatever it holds. */
  lemma TokenContentIgnored(t1: string, t2: string, path: string)
    requires t1 != "" && t2 != ""
    ensures Gate(Some(t1), path) == Gate(Some(t2), path)
  {
  }

  /** Following a redirect reaches a page the gate lets through: at most one
      redirect happens in a row for a fixed cookie. */
  lemma {:induction false} RedirectSettles(cookie: Option<string>, path: string)
    requires Gate(cookie, path).Redirect?
    ensures Gate(cookie, Gate(cookie, path).target) == Next
  {
    var token := TokenValue(cookie);
    if token == "" {
      assert Gate(cookie, path) == Redirect(LoginPath);
      assert Matched(LoginPath);
    } else {
      assert Gate(cookie, path) == Redirect(HomePath);
      assert HomePath != LoginPath;
    }
  }
}
