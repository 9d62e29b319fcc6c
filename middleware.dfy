/** The access-routing middleware: for every request it decides, from the
    signed-in user, the role in the session claims and the path, whether the
    request goes through, is sent to sign-in, or is redirected. */
module Middleware {
  import opened Common

  /** What the middleware answers: `NextResponse.next()`, `redirectToSignIn`
      with the URL to come back to, or `NextResponse.redirect` to a path. */
  datatype Decision = Next | SignIn(returnBackUrl: string) | Redirect(target: string)

  // Route matchers `createRouteMatcher(['/x(.*)'])`: the path starts with `/x`.

  predicate IsAdminRoute(path: string) {
    StartsWith(path, "/admin")
  }

  predicate IsTeacherRoute(path: string) {
    StartsWith(path, "/teacher")
  }

  predicate IsStudentRoute(path: string) {
    StartsWith(path, "/student")
  }

  predicate IsPublicRoute(path: string) {
    StartsWith(path, "/api/webhooks")
  }

  predicate IsProtectedRoute(path: string) {
    IsAdminRoute(path) || IsTeacherRoute(path)
  }

  /** A role that gives access to the staff areas. */
  predicate IsStaffRole(role: Option<string>) {
    role == Some("ADMIN") || role == Some("TEACHER")
  }

  /** The middleware body, branch for branch. `userId` and `role` are absent
      or empty when the session has none (both are falsy then). */
  function Decide(userId: Option<string>, role: Option<string>, path: string, url: string): (d: Decision)
    ensures !Truthy(userId) ==> (d == Next <==> path == "/" || IsStudentRoute(path) || IsPublicRoute(path))
    ensures !Truthy(userId) && d != Next ==> d == SignIn(url)
    ensures Truthy(userId) ==> d.Next? || d.Redirect?
  {
    if !Truthy(userId) then
      if path == "/" || IsStudentRoute(path) || IsPublicRoute(path) then Next
      else SignIn(url)
    else if !Truthy(role) || (role != Some("ADMIN") && role != Some("TEACHER")) then
      if (IsProtectedRoute(path) || path == "/") && path != "/inactive" then Redirect("/inactive")
      else Next
    else if path == "/" && role == Some("ADMIN") then Redirect("/admin")
    else if path == "/" && role == Some("TEACHER") then Redirect("/teacher")
    else if IsAdminRoute(path) && role != Some("ADMIN") then Redirect("/teacher")
    else if IsTeacherRoute(path) && role != Some("TEACHER") && role != Some("ADMIN") then Redirect("/inactive")
    else Next
  }

  /** A signed-in user without a staff role is sent to '/inactive' from the
      staff areas and from '/', and passes everywhere else. */
  lemma RolelessUsers(userId: Option<string>, role: Option<string>, path: string, url: string)
    requires Truthy(userId) && !IsStaffRole(role)
    ensures Decide(userId, role, path, url) ==
      if IsProtectedRoute(path) || path == "/" then Redirect("/inactive") else Next
  {
    if path == "/inactive" {
      InactiveIsNotProtected();
    }
  }

  lemma InactiveIsNotProtected()
    ensures !IsProtectedRoute("/inactive")
  {
    assert "/inactive"[1] != "/admin"[1];
    assert "/inactive"[1] != "/teacher"[1];
  }

  /** A role-less user on '/inactive' is let through: the page cannot loop. */
  lemma InactivePageNeverLoops(userId: Option<string>, role: Option<string>, url: string)
    requires Truthy(userId) && !IsStaffRole(role)
    ensures Decide(userId, role, "/inactive", url) == Next
  {
    InactiveIsNotProtected();
  }

  /** Staff landing on '/' go to their own area. */
  lemma StaffRootRedirects(userId: Option<string>, url: string)
    requires Truthy(userId)
    ensures Decide(userId, Some("ADMIN"), "/", url) == Redirect("/admin")
    ensures Decide(userId, Some("TEACHER"), "/", url) == Redirect("/teacher")
  {
  }

  /** Only an ADMIN gets through to an '/admin' path; a TEACHER is sent to
      '/teacher'. */
  lemma AdminAreaIsAdminOnly(userId: Option<string>, role: Option<string>, path: string, url: string)
    requires IsAdminRoute(path)
    ensures Decide(userId, role, path, url) == Next <==> Truthy(userId) && role == Some("ADMIN")
    ensures Truthy(userId) && role == Some("TEACHER") ==> Decide(userId, role, path, url) == Redirect("/teacher")
  {
    assert path != "/" by {
      assert |path| >= 6;
    }
    assert !IsStudentRoute(path) && path != "/inactive" by {
      assert path[1] == 'a';
    }
    assert !IsPublicRoute(path) by {
      assert path[2] == 'd';
    }
  }

  /** The '/teacher' guard never fires: the users it would catch were already
      sent away by the role-less rule. */
  lemma TeacherGuardIsUnreachable(userId: Option<string>, role: Option<string>, path: string, url: string)
    requires Truthy(userId) && IsTeacherRoute(path)
    ensures Decide(userId, role, path, url) == Redirect("/inactive") <==> !IsStaffRole(role)
  {
    assert path != "/" by {
      assert |path| >= 8;
    }
    assert !IsAdminRoute(path) && path != "/inactive" by {
      assert path[1] == 't';
    }
  }

  /** Whoever gets through to a staff area is signed in with a staff role. */
  lemma StaffAreasNeedStaffRole(userId: Option<string>, role: Option<string>, path: string, url: string)
    requires IsProtectedRoute(path) && Decide(userId, role, path, url) == Next
    ensures Truthy(userId) && IsStaffRole(role)
  {
    if IsAdminRoute(path) {
      AdminAreaIsAdminOnly(userId, role, path, url);
    } else {
      assert path != "/" by {
        assert |path| >= 8;
      }
      assert !IsStudentRoute(path) && !IsPublicRoute(path) by {
        assert path[1] == 't';
      }
      TeacherGuardIsUnreachable(userId, role, path, url);
    }
  }

  /** A redirect never points at the path it came from, and the target is
      let through on the next request: every redirect settles in one step. */
  lemma RedirectsSettle(userId: Option<string>, role: Option<string>, path: string, url: string)
    requires Decide(userId, role, path, url).Redirect?
    ensures Decide(userId, role, path, url).target != path
    ensures Decide(userId, role, Decide(userId, role, path, url).target, url) == Next
  {
    var t := Decide(userId, role, path, url).target;
    assert StartsWith("/admin", "/admin");
    assert StartsWith("/teacher", "/teacher");
    assert !StartsWith("/teacher", "/admin") by {
      assert "/teacher"[1] != "/admin"[1];
    }
    assert !StartsWith("/admin", "/teacher") by {
      assert "/admin"[1] != "/teacher"[1];
    }
    if t == "/inactive" {
      InactivePageNeverLoops(userId, role, url);
      if IsAdminRoute(path) {
        assert path[1] == 'a';
      } else if IsTeacherRoute(path) {
        assert path[1] == 't';
      }
    }
  }
}
