# Posts: in-memory store and pagination parameters

This project is a Dafny model of two small parts of the posts feature of a NestJS
application:

- **The in-memory post store** (`src/posts/posts.service.ts`). The service keeps a
  module-level list of post records (id, author, title, content, like count,
  comment count). It starts from three seed posts with ids 1, 2, 3. It offers five
  operations: list all, look up by id, create, update and delete. In the model the
  list is a `seq<Post>` value. Each operation is a pure function that returns
  either `Ok((newList, result))` or `Err(error)`. On an error the service raises
  before it reassigns its list, so the caller's list is kept as it was
  (`PostsProperties.Commit` makes that explicit for request sequences).
- **The pagination request record** (`src/posts/dto/paginte-post.dto.ts`). It has
  two optional id bounds, a sort direction on creation time, and a page size.
  `PaginatePostDto.Validate` applies exactly the declared checks and defaults:
  - the bounds and the page size must be finite numbers when present;
  - the direction must be the string `ASC` or `DESC` when present;
  - an absent direction is `ASC` and an absent page size is 20.

Files:

- `wrappers.dfy`: `Option` and `Result`.
- `posts_service.dfy`: the post record, the seed list and the five operations, with their contracts.
- `posts_properties.dfy`: lookups after writes, the strictly-increasing-id invariant
  over any request sequence from the seed, and the id reuse after deleting the last post.
- `paginate_post_dto.dfy`: the raw and validated parameter records and the validator.

Behaviour pinned down by the model:

- `createPost` gives the new post the id of the *last* post plus one and appends it.
  On an empty list it reads the id of a missing element, which throws. The model
  returns the error `NoLastPost` for this case instead of requiring a non-empty list.
  An empty list is reachable: delete every post (`DeleteOnlyPostBlocksCreate`).
- `updatePost` overwrites a field only when its argument is truthy: present and
  non-empty. An empty string leaves the field as it was. The JavaScript finds the
  *first* post with the id, mutates it, then maps every post with that id to it.
  The model does the same (`ReplaceId`). With distinct ids this is a single-position
  update (`UpdateIsPointUpdate`).
- `deletePost` filters out every post with the id and keeps the order of the rest.
- Because ids are allocated as "last id + 1", deleting the last post and then
  creating one reuses the deleted id when the last two ids were consecutive. This
  happens from the seed list: delete 3, create, and the new post has id 3.

The record has no positivity check on `take` (`TakeHasNoRangeCheck`), and it
accepts and keeps both id bounds when both are supplied (`BothBoundsAccepted`).

## Model

| member | source | states |
|---|---|---|
| PostsService.FindIndex | src/posts/posts.service.ts:54 | the index found holds a post with the id and no earlier post has it; nothing is found exactly when no post has the id |
| PostsService.RemoveId | src/posts/posts.service.ts:116 | the filtered list has no post with the id, is shorter by exactly the number of such posts, and keeps the other posts in their original order (a subsequence) |
| PostsService.GetPostById | src/posts/posts.service.ts:53-61 | succeeds exactly when some post has the id; then returns the first post of the list with that id and leaves the list unchanged; otherwise raises NotFound |
| PostsService.CreatePost | src/posts/posts.service.ts:63-78 | on a non-empty list appends exactly one post with id = last id + 1, the given author/title/content and zero counts, and returns it; earlier posts unchanged; keeps ids strictly increasing with a fresh id; an empty list raises |
| PostsService.UpdatePost | src/posts/posts.service.ts:81-107 | raises NotFound exactly when no post has the id; otherwise author/title/content change only where the argument is present and non-empty, id and counts are kept, length and all ids keep their order, posts with other ids are untouched, and the updated post is returned; keeps ids strictly increasing |
| PostsService.DeletePost | src/posts/posts.service.ts:109-119 | raises NotFound exactly when no post has the id; otherwise returns the id, and the new list has no post with it, has lost exactly those posts, and keeps the rest in order |
| PostsProperties.SubsequenceKeepsIncreasing | src/posts/posts.service.ts:116 | dropping posts from a list whose ids strictly increase keeps them strictly increasing |
| PostsProperties.RemoveIdMembers | src/posts/posts.service.ts:116 | a post survives the delete filter exactly when it was in the list and its id differs from the deleted id |
| PostsProperties.CountIdOfIncreasing | src/posts/posts.service.ts:20-45 | in a list with strictly increasing ids each id occurs at most once |
| PostsProperties.RemoveIdAppend | src/posts/posts.service.ts:116 | filtering a concatenation is the concatenation of the filtered parts |
| PostsProperties.RemoveIdAbsent | src/posts/posts.service.ts:116 | filtering out an id no post has leaves the list as it is |
| PostsProperties.SeedIsStrictlyIncreasing | src/posts/posts.service.ts:20-45 | the seed list holds the three posts with ids 1, 2, 3 in that order |
| PostsProperties.AllPostsListsEveryLookup | src/posts/posts.service.ts:49-61 | `GetAllPosts` (getAllPosts) returns the current list itself and leaves the store unchanged, and a lookup by id succeeds exactly for the ids of the posts listed |
| PostsProperties.LookupIsTheOnlyMatch | src/posts/posts.service.ts:53-61 | with strictly increasing ids, every post with the looked-up id is the post the lookup returns |
| PostsProperties.LookupAfterCreate | src/posts/posts.service.ts:53-78 | with strictly increasing ids, after a create the new post is last in the list and a lookup by its id returns it |
| PostsProperties.UpdateIsPointUpdate | src/posts/posts.service.ts:87-106 | with strictly increasing ids, an update replaces the one post found and nothing else, and a lookup then returns the updated post |
| PostsProperties.DeleteRemovesOnePost | src/posts/posts.service.ts:109-118 | with strictly increasing ids, a delete removes exactly one post, keeps ids strictly increasing and every other post, and a later lookup of the id raises NotFound |
| PostsProperties.SeedDeleteLastThenCreateReusesId | src/posts/posts.service.ts:20-118 | from the seed list, deleting post 3 and creating a post gives the new post id 3 again |
| PostsProperties.DeleteLastThenCreate | src/posts/posts.service.ts:63-118 | deleting the last post removes exactly it; the next created id is the previous post's id + 1, never above the deleted id, and equal to it exactly when the last two ids were consecutive |
| PostsProperties.DeleteOnlyPostBlocksCreate | src/posts/posts.service.ts:63-116 | deleting the only post succeeds, and creating a post on the resulting empty list raises |
| PostsProperties.StepPreservesIncreasing | src/posts/posts.service.ts:49-119 | every request, successful or failing, keeps ids strictly increasing; reads leave the list as it was |
| PostsProperties.RunPreservesIncreasing | src/posts/posts.service.ts:49-119 | any sequence of requests keeps ids strictly increasing |
| PostsProperties.ReachableIdsAreUnique | src/posts/posts.service.ts:20-119 | every list reachable from the seed by any requests has pairwise distinct ids |
| PaginatePostDto.Failures | src/posts/dto/paginte-post.dto.ts:4-29 | a parameter is reported exactly when it is present and fails its check: number for the bounds and the page size, ASC/DESC for the direction |
| PaginatePostDto.Validate | src/posts/dto/paginte-post.dto.ts:3-30 | accepted exactly when no check fails; otherwise every failing parameter is reported; on success absent direction is ASC, absent page size is 20, and supplied values are carried through |
| PaginatePostDto.ValidateRoundTrip | src/posts/dto/paginte-post.dto.ts:3-30 | a request that supplies every field of some parameters validates back to those parameters |
| PaginatePostDto.EmptyQueryGivesDefaults | src/posts/dto/paginte-post.dto.ts:22-29 | an empty request validates to no bounds, ASC and 20 |
| PaginatePostDto.OrderAcceptedIffAscOrDesc | src/posts/dto/paginte-post.dto.ts:22-24 | a supplied direction is accepted exactly when it is the string ASC or DESC; otherwise only the direction is reported |
| PaginatePostDto.BoundsMustBeNumbers | src/posts/dto/paginte-post.dto.ts:4-12 | each id bound, when supplied, is accepted exactly when it is a finite number |
| PaginatePostDto.TakeHasNoRangeCheck | src/posts/dto/paginte-post.dto.ts:27-29 | every number, including zero and negatives, is an accepted page size and is kept |
| PaginatePostDto.BothBoundsAccepted | src/posts/dto/paginte-post.dto.ts:4-12 | supplying both id bounds passes validation and both are kept |

## Left out

- The HTTP controller, its routes, guards, `ParseIntPipe` and user decorator are not modelled. They are framework plumbing. The controller also calls service routines (`paginatePosts`, `generatePosts`, a two-argument `createPost`) that the service file does not define, so the cursor pagination and next-link logic are not modelled.
- The module wiring and the application bootstrap are not modelled. This includes the global validation pipe's implicit string-to-number conversion. Values reach `Validate` already typed as `JsValue`.
- The `+id` string-to-number coercion in `getPostById` is not modelled; the id is an integer.
- JavaScript object aliasing in `updatePost` is not modelled. The in-place mutation of the found post is replaced by its net effect on the list.
- `NotFoundException` is the error variant `NotFound`, without HTTP status semantics.
- `null` values are not modelled. The validator skips them like absent ones, and a query string cannot carry them.
- Parameters outside the record are not modelled. The pipe is not configured to reject them.
- PaginatePostDto.Validate: numbers are integers, so fractional numbers, which pass the number check, are not represented.
- PostsService.CreatePost: ids are unbounded integers. JavaScript numbers lose precision above 2^53, which the model does not represent.
