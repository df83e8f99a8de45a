/** The client's Pinia store of users. Like the book store it changes its list
    only after the API call succeeds; unlike it, it has no action that adds a
    user, and an update stores the caller's own copy rather than the server's
    answer. */
module ClientUsers {
  import opened Js
  import opened JsArray

  /** A user as the client holds it (`IUser`). */
  datatype User = User(id: string, username: string, password: string, isAdmin: bool, createdAt: string)

  function UserId(u: User): string { u.id }

  class UserStore {
    /** `users.value` */
    var users: seq<User>

    constructor ()
      ensures users == []
    {
      users := [];
    }

    /** `fetchUsers`: the list becomes the server's list. This is the only
        action after which the list can be longer. */
    method FetchUsers(response: ApiResult<seq<User>>) returns (outcome: Outcome)
      modifies this
      ensures outcome == OutcomeOf(response)
      ensures users == if response.Ok? then response.data else old(users)
    {
      outcome := OutcomeOf(response);
      if response.Ok? {
        users := response.data;
      }
    }

    /** `updateUser`: the first user with the same id is replaced by (a copy
        of) `updated` itself; the server's answer is not used. */
    method UpdateUser(updated: User, response: ApiResult<()>) returns (outcome: Outcome)
      modifies this
      ensures outcome == OutcomeOf(response)
      ensures users == if response.Ok? then ReplaceFirstById(old(users), UserId, updated.id, updated)
                       else old(users)
      ensures |users| == |old(users)|
    {
      outcome := OutcomeOf(response);
      if response.Ok? {
        var index := FindIndexById(users, UserId, updated.id);
        ReplaceFirstIsIndexUpdate(users, UserId, updated.id, updated);
        if index != -1 {
          users := users[index := updated];
        }
      }
    }

    /** `deleteUser`: after the server confirms, every user with that id is
        filtered out; a failed call leaves the list alone and is rethrown. */
    method DeleteUser(userId: string, response: ApiResult<()>) returns (outcome: Outcome)
      modifies this
      ensures outcome == OutcomeOf(response)
      ensures users == if response.Ok? then WithoutId(old(users), UserId, userId) else old(users)
      ensures |users| <= |old(users)|
    {
      outcome := OutcomeOf(response);
      if response.Ok? {
        users := WithoutId(users, UserId, userId);
      }
    }
  }
}
