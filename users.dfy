/** The requesting user, as the permission checks see it: a primary key, the
    staff flag and the set of permission names the user holds (including
    those an active superuser holds implicitly). */
module Users {

  datatype User = User(id: int, isStaff: bool, perms: set<string>)

  /** `user.has_perm(name)` */
  predicate HasPerm(u: User, name: string) {
    name in u.perms
  }
}
