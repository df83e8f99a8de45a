# Book catalogue: authentication core and client state, in Dafny

This project models the parts of the book-catalogue web application that make decisions. The application has two halves.

- **Book API** (Express server):
  - the two access-control guards `verifyToken` and `verifyAdmin`;
  - the `register`, `login` and `logout` handlers, covering:
    - the order of their checks;
    - their status codes and messages;
    - the default admin flag;
    - the claims signed into the session token;
    - the session cookie's attributes.
- **Client** (Vue single-page app):
  - the Pinia stores for books, users and authentication;
  - the router's navigation guard and route table.

The libraries the code calls become explicit inputs:

- **JSON Web Tokens** (`jsonwebtoken`, RFC 7519):
  - a token is built by a constructor over its claims, its secret and its lifetime;
  - `jwt.verify` is a function argument that returns the decoded payload or `None` ("throws");
  - `Jwt.HonestVerifier` states the one property the proofs need: whatever it accepts was signed with that secret, and carries exactly the signed claims.
- **bcrypt:** `hash` and `compare` are function arguments. `Bcrypt.AcceptsOwnHash` states that a password matches its own hash.
- **Database and API calls:**
  - The user collection is a sequence of records in storage order. `User.findOne` returns the first record with that username.
  - Each database or API call that can fail is an input saying whether it did.

Layout:

- Server side: `js.dfy`, `js_array.dfy`, `jwt.dfy`, `bcrypt.dfy`, `http.dfy` hold the shared values, and `auth_middleware.dfy` and `auth_controller.dfy` hold the handlers.
- Client side: `book_store.dfy`, `user_store.dfy`, `auth_store.dfy`, `router.dfy`.
- `end_to_end.dfy` connects the two halves.

The server's handlers and guards are pure functions that return the response (and, for the guards, whether `next()` ran and what `req.user` became). The client's stores are classes whose one field (or two, for authentication) is reassigned by methods. Those methods state the whole new state in terms of the old one. The array built-ins they use (`findIndex`, `filter`, index assignment) are recursive specification functions with their own proved properties.

## Model

| member | source | states |
|---|---|---|
| `ServerMiddleware.VerifyToken` | book-api/src/middleware/authMiddleware.ts:23-43 | A missing or empty cookie or secret gives 401 "Access denied. No token provided.". A throwing verification gives 403 "Invalid or expired token.". `next()` runs exactly when both are present and verification succeeds, and `req.user` is then the decoded payload. On every path exactly one of `next()` and a response happens, and `req.user` is written only with `next()`. |
| `ServerMiddleware.VerifyAdmin` | book-api/src/middleware/authMiddleware.ts:54-78 | 401 "Access denied." without a cookie or secret. 403 "Invalid token." when verification throws. 403 "Admin access required." when the decoded `is_admin` is not truthy, with `req.user` left unset. `next()` runs exactly when the token verifies and `is_admin` is truthy. Exactly one of `next()` and a response happens. |
| `ServerMiddleware.AdminImpliesToken` | book-api/src/middleware/authMiddleware.ts:62-75 | Whatever `verifyAdmin` lets through, `verifyToken` lets through with the same `req.user`. Whatever `verifyToken` refuses, `verifyAdmin` refuses with the same status. |
| `ServerMiddleware.AdminStrictlyStronger` | book-api/src/middleware/authMiddleware.ts:69-72 | A valid token whose payload has no `is_admin` claim passes `verifyToken` and gets 403 "Admin access required." from `verifyAdmin`. |
| `ServerAuth.FindOne` | book-api/src/controllers/authController.ts:65 | Finds nothing exactly when no record has the username. Otherwise returns a record with that username that no earlier record shares. |
| `ServerAuth.Register` | book-api/src/controllers/authController.ts:20-46 | The username is checked before the password: a missing username gives 400 "Username is required" even when the password is also missing. Success (200) happens exactly when both are present and hashing and creation succeed. The created record holds `hash(password, salt)`, and `is_admin` is false unless the body says true. The record is appended to the collection and sent back whole in a 200 response that touches no cookie. A creation error is a 500 with its message and stores nothing. |
| `ServerAuth.Login` | book-api/src/controllers/authController.ts:56-100 | A missing field gives 401 "Username and password are required", whatever the collection holds. Then a lookup error gives a 500 with its message, and a missing secret gives 500 "Missing JWT_SECRET in .env file". Success happens exactly when the first record with that username exists and `compare` accepts the password. The response then sets cookie `accessToken` over a token signed with claims `{username}` only and a 900-second lifetime. The cookie is httpOnly, sameSite strict, not secure, with maxAge 900000 ms. The body holds only the message and the account's `is_admin`. An unknown username, or a known one whose `compare` answers false, gets the 401 "Invalid username or password", and every other 401 on a request with both fields is that same response. A `compare` that throws gives 500 "Error comparing passwords". No path sends a user record, and only success touches cookies. |
| `ServerAuth.Logout` | book-api/src/controllers/authController.ts:110-113 | Always 200, always clears `accessToken`. |
| `ServerAuth.CookieMatchesTokenLifetime` | book-api/src/controllers/authController.ts:84-91 | The session cookie's maxAge in milliseconds is 1000 times the token's lifetime in seconds, and the cookie is httpOnly and sameSite strict. |
| `ServerAuth.UnknownUserLikeWrongPassword` | book-api/src/controllers/authController.ts:72-82 | For the same request, an unknown username and a known one with a wrong password get identical responses. Once the secret is set, that response is the 401 "Invalid username or password". |
| `ServerAuth.LogoutIdempotent` | book-api/src/controllers/authController.ts:110-113 | Applying logout's cookie instruction once or twice leaves the browser with the same result: no session cookie. |
| `ServerAuth.RegisterThenLogin` | book-api/src/controllers/authController.ts:34-40 | After a successful registration of a fresh username, logging in with the same username and password succeeds and reports the admin flag chosen at registration. This holds for any bcrypt whose `compare` accepts its own hashes. |
| `JsArray.FindIndexById` | client-side/src/stores/bookStore.ts:48 | `findIndex` by `_id` returns -1 exactly when no element matches. Otherwise it returns the first matching index. |
| `JsArray.FindIndexByIdAppend` | book-api/src/controllers/authController.ts:40 | After appending behind a collection with no match, the first match is the new element if it matches, and there is still none otherwise. |
| `JsArray.CountId` | client-side/src/stores/bookStore.ts:64 | The number of elements with the id is zero exactly when none matches, and never more than the length. |
| `JsArray.WithoutId` | client-side/src/stores/bookStore.ts:64 | `filter(x => x._id !== id)`: no kept element has the id, every element without it is kept, and the length shrinks by exactly the number of matches. |
| `JsArray.WithoutIdAppend` | client-side/src/stores/bookStore.ts:64 | Filtering distributes over concatenation, so the kept elements keep their relative order. |
| `JsArray.WithoutIdNoMatch` | client-side/src/stores/userStore.ts:53 | Filtering an array with no matching element returns it unchanged. |
| `JsArray.ReplaceFirstById` | client-side/src/stores/bookStore.ts:48-51 | The find-then-assign update keeps the length. |
| `JsArray.ReplaceFirstIsIndexUpdate` | client-side/src/stores/bookStore.ts:48-51 | The update is the identity when `findIndex` gives -1. Otherwise it is the assignment at exactly the index `findIndex` gives. |
| `JsArray.ReplaceFirstFrame` | client-side/src/stores/userStore.ts:38-41 | After the update the length is unchanged, the first match holds the new element, and every other index holds what it held before. |
| `ClientBooks.BookStore.constructor` | client-side/src/stores/bookStore.ts:18 | The list starts empty. |
| `ClientBooks.BookStore.FetchBooks` | client-side/src/stores/bookStore.ts:24-27 | On success the list is the server's list. On failure it is unchanged and the error propagates. |
| `ClientBooks.BookStore.AddBook` | client-side/src/stores/bookStore.ts:34-37 | On success the server's record is appended behind the unchanged earlier books. On failure nothing changes. |
| `ClientBooks.BookStore.UpdateBook` | client-side/src/stores/bookStore.ts:44-52 | On success the first book with the updated id is replaced by the server's `data` (see `ReplaceFirstFrame` for what that keeps). On failure nothing changes. |
| `ClientBooks.BookStore.DeleteBook` | client-side/src/stores/bookStore.ts:60-69 | On success every book with the id is filtered out (see `WithoutId`). On failure the list is unchanged and the call's error is rethrown. |
| `ClientUsers.UserStore.constructor` | client-side/src/stores/userStore.ts:18 | The list starts empty. |
| `ClientUsers.UserStore.FetchUsers` | client-side/src/stores/userStore.ts:24-27 | On success the list is the server's list. On failure it is unchanged. |
| `ClientUsers.UserStore.UpdateUser` | client-side/src/stores/userStore.ts:34-42 | On success the first user with the id is replaced by the caller's own `updatedUser`, not by anything from the server. The length never changes. |
| `ClientUsers.UserStore.DeleteUser` | client-side/src/stores/userStore.ts:50-58 | On success every user with the id is filtered out. On failure the list is unchanged and the error is rethrown. The list never grows. |
| `ClientAuth.AuthStore.constructor` | client-side/src/stores/useAuthStore.ts:12-17 | Initially not authenticated and no user, which satisfies the invariant that the store is authenticated exactly when it holds a user. |
| `ClientAuth.AuthStore.Login` | client-side/src/stores/useAuthStore.ts:22-42 | On success the store is authenticated and holds a user built from the credentials just logged in with and the response's `is_admin` (the corrected construction, see "## Findings"). On failure both fields are reset, whatever they held. The invariant holds afterwards in both cases. |
| `ClientAuth.AuthStore.Logout` | client-side/src/stores/useAuthStore.ts:45-55 | On success both fields are cleared. On failure neither changes. The invariant is preserved. |
| `ClientAuth.AuthStore.Register` | client-side/src/stores/useAuthStore.ts:58-65 | Changes neither field. |
| `ClientRouter.RouteAt` | client-side/src/router/index.ts:22-46 | Returns a declared route with exactly that path, or nothing when no declared route has it. |
| `ClientRouter.Guard` | client-side/src/router/index.ts:56-65 | Calls `next` once. It redirects, always to "/auth", exactly when the target requires authentication and the user is not authenticated. Otherwise it proceeds. |
| `ClientRouter.OnlyAdminRequiresAuth` | client-side/src/router/index.ts:22-46 | Of the declared routes, exactly "/admin" requires authentication. |
| `ClientRouter.RedirectTargetProceeds` | client-side/src/router/index.ts:56-60 | The redirect target "/auth" is a declared route that the guard lets through whatever the authentication state, so no redirect loop arises. |
| `EndToEnd.LoginTokenNeverAdmin` | book-api/src/middleware/authMiddleware.ts:69-72 | Every token minted by a successful login carries only `username`, so `verifyAdmin` never lets it through. With the login secret the answer is 403, whether verification then succeeds or fails. |
| `EndToEnd.LoginTokenPassesVerifyToken` | book-api/src/middleware/authMiddleware.ts:37-39 | A freshly minted token that the library still accepts passes `verifyToken`, and `req.user`'s claims are exactly `{username}`. |
| `EndToEnd.LogoutThenProtectedIs401` | book-api/src/middleware/authMiddleware.ts:31-34 | After logout's cookie instruction, both guards answer 401. |
| `EndToEnd.StoredUsernameLostAsWritten` | client-side/src/stores/useAuthStore.ts:31-34 | As written, the stored user's `username` is read from the login body's `username` field. Every successful server login sends a body without that field (book-api/src/controllers/authController.ts:92-95), so the stored username is `undefined`. |
| `EndToEnd.StoredUserMatchesAccount` | client-side/src/stores/useAuthStore.ts:31-34 | With the corrected construction, after a successful login the client's user is the logged-in username with that stored account's admin flag, as read from the response body. |
| `EndToEnd.RegisterPathUnservedAsWritten` | client-side/src/stores/useAuthStore.ts:61 | As written, the client's `register` posts to "/register", which is none of the paths the server routes to its authentication handlers. |
| `EndToEnd.ClientPathsServed` | book-api/src/routes/auth.ts:10-12 | The server serves `register`, `login` and `logout` under the "/auth" mount (book-api/src/index.ts:43). The client's login and logout paths, and the corrected register path "/auth/register", are all among them. |

## Findings

| source | as written | input that shows it | evidently intended | confidence | as-written member | corrected member |
|---|---|---|---|---|---|---|
| client-side/src/stores/useAuthStore.ts:31-34 | The store's `user.username` is copied from `data.username` of the login response. | Any successful login. The server's login body (book-api/src/controllers/authController.ts:92-95) is `{ message, is_admin }` and has no `username`, so the stored username is `undefined`. | The store holds the name of the logged-in user, as `ILogedinUser.username: string` declares. | medium; not executed | `EndToEnd.StoredUsernameLostAsWritten` | `ClientAuth.AuthStore.Login`, with `EndToEnd.StoredUserMatchesAccount` |
| client-side/src/stores/useAuthStore.ts:61 | `register` posts to "/register". | Any registration from the client. The server mounts its authentication router at "/auth" (book-api/src/index.ts:43), so its handler is at "/auth/register" (book-api/src/routes/auth.ts:10), while `login` and `logout` in the same store post under "/auth". | The client posts to "/auth/register", like its sibling actions. | medium; not executed | `EndToEnd.RegisterPathUnservedAsWritten` | `EndToEnd.ClientPathsServed` (over `ClientAuth.RegisterPath`) |

## Left out

- Request bodies: only strings, booleans and `undefined` are modelled. `null`, numbers and objects are not:
  - an object used as `username` would reach `User.findOne` as a query;
  - a non-boolean `is_admin` is cast by the database schema.
- Password hashing: bcrypt's salt generation (cost factor 10) and its digest. The salt is an input and `hash`/`compare` are function arguments. `register` keeps the hash exactly as `hash` returns it. That the hash differs from the plaintext is the library's property, not stated here.
- JSON Web Tokens:
  - Signature bytes, base64url encoding, and the `iat`/`exp` computation are not modelled.
  - The clock is not modelled. Whether a token has expired is whatever the `verify` argument answers.
  - String payloads are not modelled either: `jwt.verify` can return a string, but the model's payload is always an object.
- JSON values and token claims are primitives only (`undefined`, `null`, booleans, integers, strings). Objects and arrays, which are always truthy, are not modelled. The registered claims `iat` and `exp` are kept in their own payload fields, apart from the claims map.
- The database:
  - `_id` and `created_at` of a user record;
  - schema validation;
  - the order `findOne` scans in, which is modelled as storage order;
  - the fact that the schema does not make usernames unique, which the model keeps: several records can share a username.
- `register`: one `createError` input stands for a throw from hashing or from `User.create`. Both give the same 500 response.
- `console.log` and `console.error` calls, which only log.
- `async`/`await`: each awaited call is one atomic step that succeeds or fails. Interleavings of concurrent actions are not modelled.
- `ClientBooks.BookStore.AddBook`: the `newBook` argument is only sent to the server, so the model takes the server's reply as the input.
- `ClientBooks.BookStore.UpdateBook`: the server's `data` is re-read after the update and could be `null` if the book disappeared in between. The model takes it to be a book.
- Array identity in `ClientBooks.BookStore` and `ClientUsers.UserStore`: each list is a sequence value that the methods reassign. The in-place `push` and index assignment, versus the wholesale replacement in the fetch and `filter` paths, and any aliasing of `books.value` or `users.value` by other code, are not captured.
- Which Pinia instance the router's auth store belongs to (client-side/src/router/index.ts:50-51): `isAuthenticated` is an input to `ClientRouter.Guard`.
- Route matching: dynamic segments such as `/books/:id` are not matched. `ClientRouter.RouteAt` matches declared paths exactly.
- The axios configuration of the client (its base URL and credentials), which is not part of this model. Request paths are compared as written, relative to that base URL.
- The book and user CRUD controllers, routes, schemas, server start-up and database connection: wiring around the database library, which is not part of this model.
