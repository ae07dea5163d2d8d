# todo-ssr in Dafny

A model of the logic of a small server-rendered todo application:

- **The client's todo list** (`src/main.jsx`): the four state updaters `addTodo`, `toggleTodo`,
  `editTodo` and `deleteTodo`, as pure functions over a sequence of `Todo` records (module
  `TodoList`). The `max + 1` id rule is modelled too. The `useState` cells of the three components
  (`App`, `TodoForm`, `TodoItem`) become fields of three classes whose handlers apply those
  functions (module `TodoApp`). The `trim` checks in the form submit and edit-save handlers use a
  model of ECMAScript `String.prototype.trim` (module `JsString`).
- **The server's in-memory store** (`server/storage.js`): class `InMemoryTodoStorage` over a
  small model of a JavaScript array (`JsArray`). Aliasing is visible: every array the store takes
  in or hands out is a fresh copy (module `Storage`).
- **Page composition** (`server/index.js`, `netlify/functions/ssr.mjs`): two replacements, each of
  the first occurrence of a marker in the HTML shell. `<!--ssr-outlet-->` becomes the rendered
  markup, then the state script goes in front of `</body>`. The render-and-compose pipeline of one
  request is modelled with the renderer and the serialiser as opaque function parameters (module
  `SsrPage`).
- **The long-running server's handlers** (`server/index.js`): `GET /api/todos` and the catch-all
  page route, over an Express response object updated in place. A call to `next(e)` is modelled
  as the error the handler returns (module `Server`).
- **The serverless handler** (`netlify/functions/ssr.mjs`): URL selection, the fixed seed, and
  the 200 and 500 response records, as one pure function (module `NetlifySsr`).

I/O is passed in as parameters. Reading the shell file (and the dev server's transform of it)
arrives as a `Result<string>`. Loading the renderer module arrives as a `Result<Renderer>`. The
renderer is a function `(url, state) -> Result<string>`, and its error result stands for a throw.
`JSON.stringify` and `serialize-javascript` are opaque `InitialData -> string` functions. The
`toJson` of `res.json` is an opaque `seq<Todo> -> string`.

Behaviour of the code worth knowing:
- The composed page is not always free of outlet markers. Only the first marker is replaced
  (`SsrPage.SecondOutletSurvives`). A `</body>` in the rendered markup takes the state script
  (`SsrPage.MarkupBodyEndTakesScript`).
- Only the two form handlers check that text is non-empty after trimming. `addTodo` and
  `editTodo` accept any text.
- `deleteTodo` removes every record with the id. It removes exactly one record only when ids are
  unique (`TodoList.DeleteRemovesOne`).
- The serverless handler puts the error's message into the 500 body (`NetlifySsr.Handler`).
- Neither serialiser is claimed to escape `</script>`. `JSON.stringify` does not.

## Model

| member | source | states |
|---|---|---|
| `JsString.TrimStart` | src/main.jsx:9 | the result is a suffix of the input, the dropped prefix is all whitespace, and the result does not start with whitespace |
| `JsString.TrimEnd` | src/main.jsx:9 | the result is a prefix of the input, the dropped suffix is all whitespace, and the result does not end with whitespace |
| `JsString.Trim` | src/main.jsx:9 | `trim()` is empty exactly when the text is all whitespace; otherwise it starts and ends with non-whitespace |
| `JsString.TrimStripsPadding` | src/main.jsx:9 | whitespace padding on both sides of a clean text is removed and the text itself is kept |
| `JsString.TrimIdempotent` | src/main.jsx:9 | trimming twice is trimming once |
| `TodoList.MaxId` | src/main.jsx:105 | `Math.max` of the ids is an id of the list and no id exceeds it |
| `TodoList.NextId` | src/main.jsx:105 | the new id is 1 for an empty list, otherwise one more than an existing id, and above every existing id |
| `TodoList.AddTodo` | src/main.jsx:103-107 | exactly one record is appended, with the given text, `completed` false and an id above all others; earlier records unchanged |
| `TodoList.AddKeepsUniqueIds` | src/main.jsx:105-106 | a list with unique ids keeps unique ids after an add |
| `TodoList.ToggleTodo` | src/main.jsx:110-112 | length, order, ids and texts kept; `completed` changes exactly on the records with the id |
| `TodoList.ToggleTwice` | src/main.jsx:110-112 | toggling the same id twice restores the list |
| `TodoList.ToggleUnknownId` | src/main.jsx:110-112 | toggling an absent id is a no-op |
| `TodoList.ToggleKeepsUniqueIds` | src/main.jsx:111 | unique ids stay unique |
| `TodoList.EditTodo` | src/main.jsx:114-116 | length, order, ids and flags kept; records with the id get the new text, all others are unchanged |
| `TodoList.EditUnknownId` | src/main.jsx:114-116 | editing an absent id is a no-op |
| `TodoList.EditLastWins` | src/main.jsx:114-116 | of two edits of one id the later text wins |
| `TodoList.EditKeepsUniqueIds` | src/main.jsx:115 | unique ids stay unique |
| `TodoList.DeleteTodo` | src/main.jsx:118-120 | no record with the id remains and the list does not grow |
| `TodoList.DeleteAppend` | src/main.jsx:119 | deleting distributes over concatenation, so survivors keep their relative order |
| `TodoList.DeleteKeepsMultiplicity` | src/main.jsx:119 | a record with another id occurs after the delete exactly as often as before |
| `TodoList.DeleteUnknownId` | src/main.jsx:118-120 | deleting an absent id is a no-op |
| `TodoList.DeleteIdempotent` | src/main.jsx:118-120 | deleting the same id twice is deleting it once |
| `TodoList.DeleteRemovesOne` | src/main.jsx:118-120 | with unique ids, deleting a present id removes exactly one record |
| `TodoList.DeleteKeepsUniqueIds` | src/main.jsx:119 | unique ids stay unique |
| `TodoList.InitialTodos` | src/main.jsx:89-92 | empty when `initialData` or its `todos` is absent, otherwise an element-wise copy in order |
| `TodoApp.SubmittedText` | src/main.jsx:9-11 | nothing is passed on for all-whitespace text; otherwise the trimmed, non-empty text is |
| `TodoApp.SubmitTrimmedPassesUnchanged` | src/main.jsx:9-11 | already-trimmed text is passed on as it is |
| `TodoApp.App.constructor` | src/main.jsx:89-94 | the `todos` cell starts as the initial-list copy |
| `TodoApp.App.AddTodo` | src/main.jsx:103-108 | the cell becomes `addTodo` of its previous value |
| `TodoApp.App.ToggleTodo` | src/main.jsx:110-112 | the cell becomes `toggleTodo` of its previous value |
| `TodoApp.App.EditTodo` | src/main.jsx:114-116 | the cell becomes `editTodo` of its previous value |
| `TodoApp.App.DeleteTodo` | src/main.jsx:118-120 | the cell becomes `deleteTodo` of its previous value |
| `TodoApp.TodoForm.constructor` | src/main.jsx:5 | the input starts empty |
| `TodoApp.TodoForm.OnChange` | src/main.jsx:21 | the input holds what was typed |
| `TodoApp.TodoForm.HandleSubmit` | src/main.jsx:7-13 | blank text adds nothing and keeps the input; otherwise the trimmed text is added and the input is cleared |
| `TodoApp.TodoItem.constructor` | src/main.jsx:28-30 | an item starts out of edit mode with the record's text in the edit cell |
| `TodoApp.TodoItem.StartEditing` | src/main.jsx:64 | the Edit button enters edit mode |
| `TodoApp.TodoItem.OnEditChange` | src/main.jsx:52 | the edit cell holds what was typed |
| `TodoApp.TodoItem.HandleSave` | src/main.jsx:32-37 | edit mode is always left; blank text edits nothing, otherwise the record's text becomes the trimmed text |
| `TodoApp.TodoItem.OnToggle` | src/main.jsx:46 | the checkbox toggles this record's id |
| `TodoApp.TodoItem.OnDelete` | src/main.jsx:66 | the Delete button deletes this record's id |
| `Storage.JsArray.Push` | server/storage.js:8 | `push` appends one element to the array object itself, so every holder of that object sees it |
| `Storage.JsArray.Splice` | server/storage.js:12 | `splice(start, n)` removes the elements from `start`, at most `n` of them, clamped to the length, from the array object itself |
| `Storage.InMemoryTodoStorage.constructor` | server/storage.js:3-5 | an omitted argument gives an empty store; otherwise the same elements in order, in a fresh array |
| `Storage.InMemoryTodoStorage.GetAll` | server/storage.js:7-9 | returns a fresh array equal to the contents and changes nothing |
| `Storage.InMemoryTodoStorage.SetAll` | server/storage.js:11-13 | afterwards the contents are those given, held in a fresh array |
| `Storage.PushOnSnapshot` | server/storage.js:7-9 | pushing onto the array `getAll` returned extends that array and not the store |
| `Storage.SpliceAfterSetAll` | server/storage.js:11-13 | emptying the array given to `setAll` leaves the store, and `getAll`, with what was set |
| `SsrPage.SeedTodosWellFormed` | server/index.js:17-20 | the seed holds two records with distinct ids, one open and one completed, and the client's next id for it is 3 |
| `SsrPage.StateScript` | server/index.js:64 | the serialised state sits verbatim between `<script>window.__INITIAL_DATA__=` and `</script>` |
| `SsrPage.StateOf` | server/index.js:57 | the state handed to the renderer carries the records so that the client's initial-list copy reads them back unchanged |
| `SsrPage.FindFirst` | server/index.js:61 | a result is the first occurrence of the pattern; none exactly when there is no occurrence |
| `SsrPage.ReplaceFirst` | server/index.js:60-61 | only the first occurrence is replaced and the text around it is kept; without one the string is unchanged |
| `SsrPage.ReplaceFirstAt` | server/index.js:60-61 | the replacement spelled out at the first occurrence |
| `SsrPage.ReplaceFirstUndo` | server/index.js:60-61 | putting the pattern back where the replacement went restores the string |
| `SsrPage.LaterOccurrencesKept` | server/index.js:60-61 | later occurrences of the pattern survive, shifted by the change in length |
| `SsrPage.InsertBeforeFirst` | server/index.js:62-65 | replacing `</body>` by script plus `</body>` inserts the script just before the first `</body>` |
| `SsrPage.ComposePage` | server/index.js:60-65 | a shell with neither marker is returned unchanged |
| `SsrPage.ComposeFillsFirstOutlet` | server/index.js:60-61 | the first outlet marker, and only it, becomes the markup; without one the shell is unchanged |
| `SsrPage.ComposeScriptBeforeBodyEnd` | server/index.js:62-65 | the script lands just before the first `</body>` of the filled shell; with none, no script is added |
| `SsrPage.FillWellFormedShell` | server/index.js:60-61 | the outlet right after marker-free text is the one the markup replaces |
| `SsrPage.ScriptWellFormedShell` | server/index.js:62-65 | the script goes right before the `</body>` that follows `</body>`-free text |
| `SsrPage.ComposeWellFormedShell` | server/index.js:60-65 | for a well-formed shell, the text around the markers is kept verbatim and in order |
| `SsrPage.SecondOutletSurvives` | server/index.js:60-61 | a second outlet marker in the shell is still in the page |
| `SsrPage.MarkupBodyEndTakesScript` | server/index.js:62-65 | a `</body>` in the markup receives the script ahead of the shell's own |
| `SsrPage.RenderPage` | server/index.js:57-65 | the first error among shell, module load and render is the outcome; on success the renderer and the serialiser see the same state |
| `SsrPage.RenderPageWellFormed` | server/index.js:57-65 | with a well-formed shell the page carries the markup rendered from the state and that same state serialised |
| `Server.ExpressResponse.Status` | server/index.js:67 | `res.status(200)` sets the status only |
| `Server.ExpressResponse.Set` | server/index.js:67 | `res.set` sets each given header field, replacing one of the same name, and changes nothing else |
| `Server.ExpressResponse.End` | server/index.js:67 | `res.end(html)` sends the body |
| `Server.ExpressResponse.Json` | server/index.js:24 | `res.json` sends the serialised value, with a JSON content type unless one was already set |
| `Server.NewSeededStorage` | server/index.js:17-20 | the server's store starts with the two seed records |
| `Server.ApiTodos` | server/index.js:23-25 | `GET /api/todos` sends exactly the store's current snapshot as JSON |
| `Server.HandlePage` | server/index.js:41-71 | success sends 200 `text/html` with the page and forwards nothing; any error leaves `res` untouched and goes to `next` |
| `NetlifySsr.SelectUrl` | netlify/functions/ssr.mjs:13 | `rawUrl`, else the host header, else `/`, skipping empty strings, so never empty; an event with neither a URL nor headers throws |
| `NetlifySsr.Handler` | netlify/functions/ssr.mjs:11-49 | 200 with `text/html`, `no-store` and the seed's page, or 500 with no headers and exactly the fixed prefix followed by the message of the first error (URL selection, then shell, module load, render) |
| `NetlifySsr.MissingHeadersFails` | netlify/functions/ssr.mjs:13 | an event with no URL and no headers gets the 500 record with the TypeError's message |
| `NetlifySsr.HandlerServesSeedPage` | netlify/functions/ssr.mjs:21-42 | every successful invocation serves the same two-record seed, rendered and serialised |

## Left out

- React rendering, hydration (`src/entry-server.jsx`, `src/entry-client.jsx`) and the JSX markup:
  the renderer is an opaque, possibly failing parameter.
- The `useEffect` that adopts `window.__INITIAL_DATA__` and the browser-global default: browser
  environment and framework lifecycle.
- The content of `JSON.stringify` and `serialize-javascript`: opaque parameters. No escaping
  property is claimed.
- `SsrPage.ReplaceFirst`: replacement strings are taken literally. JavaScript's `$` patterns in a
  string replacement are not modelled, so inserted markup and state are assumed to contain none.
- Express routing and middleware, the Vite dev server and its `ssrFixStacktrace`, static serving,
  file reads, the data-URI module loading, port and environment handling, and logging. These are
  hosting plumbing; their failures arrive as error results.
- `vite.config.js`: build configuration.
- `TodoList.NextId`: ids are unbounded integers. JavaScript numbers lose precision above 2^53, and
  `Math.max(...)` can throw on very long arrays; neither is modelled.
- `JsString.IsJsWhitespace` lists the space separators of current Unicode; a JavaScript engine
  uses the Unicode version it ships with.
- `Storage.InMemoryTodoStorage.constructor`: `null` stands for the omitted argument. An explicit
  `null` in JavaScript would throw when spread.
- Records are immutable values here. The source's copies are shallow and share record objects,
  which no modelled code mutates in place.
- Thrown values that are not `Error` objects (whose `message` would be `undefined`) and header
  values that are not strings.
- React's batching of state updates: handler updates are applied in program order.
- `Server.ExpressResponse.Json`: Express also adds a charset to the content type; only the media
  type is modelled.
- `Server.ExpressResponse.Set`: Express stores `text/html` as `text/html; charset=utf-8` and
  matches header names case-insensitively; the model stores the value as given under the exact
  name.
- `Server.HandlePage`: the page's content type is recorded as the bare `text/html`, without the
  `; charset=utf-8` Express appends.
