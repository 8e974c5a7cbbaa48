/** The role fallback shared by the route guard and the navigation bar:
    `profile?.role || "student"` and the dashboard path built from it. */
module Roles {
  import opened Basics
  import opened Text

  /** `role || "student"`: a missing or empty role counts as "student". */
  function RoleOrStudent(role: Option<string>): (r: string)
    ensures r != ""
    ensures role.Some? && role.value != "" ==> r == role.value
    ensures role.None? || role.value == "" ==> r == "student"
  {
    if role.Some? && role.value != "" then role.value else "student"
  }

  /** `/dashboard/${role || "student"}`. */
  function DashboardPath(role: Option<string>): (path: string)
    ensures StartsWith(path, "/dashboard/")
    ensures path == "/dashboard/" + RoleOrStudent(role)
  {
    "/dashboard/" + RoleOrStudent(role)
  }
}
