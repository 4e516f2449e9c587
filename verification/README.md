# Stock server core in Dafny

The stock server is a single-process server built around `select`. Clients
connect over a stream socket and send lines. The server keeps:

- a pool of client slots;
- the descriptor set handed to `select`;
- a stock tree of `(ID, left_stock, price)` items.

This project models four parts of it:

- **The pool** (`pool.dfy`). The slot table is `clientfd`. The other pool
  fields are `maxi`, `maxfd`, the read set, the ready set and `nready`.
  - `init_pool`, `add_client` and `check_clients` are methods of the class
    `ConnectionPool.Pool`. They work on an array and carry loop invariants.
  - Each method is proved to agree with a function on the value
    `PoolState`: `Init`, `Add` and `Sweep`, with `Visit` for one pass of the
    sweep's loop.
  - The lemmas about those functions state what the operations guarantee:
    - the slot chosen;
    - the invariant kept;
    - the slots scanned;
    - the `nready` count;
    - the replies written.
- **Command dispatch** (`commands.dfy`).
  - The reply for one line. A line is seen as a C string, i.e. up to its
    first NUL.
  - The prefix tests for `buy ` and `sell `, in order, with the
    `command_was_processed` flag.
  - `sscanf(..., "%d %d", ...)`.
  - The replies `[buy] success`, `Not enough left stock` and
    `[sell] success`.
  - `buy_stock` and `sell_stock` are declared but never defined. They
    become parameters: functions over a store of an unknown type `S`.
- **The show test never fires.** The test on line 168 is written
  `(buf, "show", 4) == 0`. That is a comma expression whose value is `4`,
  not a call to `strncmp`. So no line ever selects the show branch. The
  model reproduces this as written: `Commands.Classify` never yields
  `ShowAll`, and `Commands.CommandReplies` shows that `show` gets no reply.
- **The listing** (`stock_tree.dfy`). `show_stock` writes one
  `"%d %d %d\n"` line per node in pre-order. A NULL child pointer is an
  `Option`, and the node itself must not be NULL.
  - The listing is proved to read back as the pre-order sequence of items.
  - It is not key order.
  - `decimal.dfy` models the `%d` conversions of `sprintf` and `sscanf`
    that the listing and the commands rely on.

## Model

| member | source | states |
|---|---|---|
| ConnectionPool.Pool.constructor | task_1/stockserver.c:54 | the pool is static storage: every field and slot starts at zero and both descriptor sets are empty |
| ConnectionPool.Pool.InitPool | task_1/stockserver.c:115-122 | every slot is set to -1 and `maxi` to -1; `maxfd` becomes the listening descriptor, which is the only descriptor watched; the ready set and `nready` are untouched; the pool is then valid |
| ConnectionPool.Init | task_1/stockserver.c:115-122 | the pool `init_pool` leaves, by definition: all `FD_SETSIZE` slots at -1, `maxi` -1, `maxfd` the listening descriptor, the read set just that descriptor, ready set and `nready` as they were |
| ConnectionPool.InitEstablishes | task_1/stockserver.c:115-122 | whatever the pool held before, `init_pool` establishes the pool invariant, frees every slot, and leaves slot 0 as the first free one |
| ConnectionPool.FirstFree | task_1/stockserver.c:129-130 | the slot search returns the lowest index holding a negative number, or nothing exactly when every slot holds a non-negative one |
| ConnectionPool.Add | task_1/stockserver.c:126-142 | the pool `add_client` leaves, by definition: `nready` one lower; then, if `FirstFree` finds slot k, k holds the descriptor, the descriptor is watched, and `maxfd` and `maxi` rise to the descriptor and k where these are larger; with no free slot nothing else changes |
| ConnectionPool.Pool.AddClient | task_1/stockserver.c:126-142 | the slot taken is `FirstFree` of the old table, or none for a full pool; the new state is `Add` of the old state; the pool stays valid |
| ConnectionPool.AddTakesLowestFree | task_1/stockserver.c:126-139 | when slot k is the lowest free one: k receives the descriptor and no other slot changes; the descriptor joins the read set; `maxfd` and `maxi` become the larger of their old value and the descriptor or k; `nready` drops by exactly 1 |
| ConnectionPool.AddToFullPool | task_1/stockserver.c:128-141 | when no slot is free, no slot is overwritten and only `nready` drops by 1 (the server then stops with "Too many clients") |
| ConnectionPool.AddPreservesInvariant | task_1/stockserver.c:126-142 | `add_client` keeps the invariant: every occupied slot lies at or below `maxi` and holds a descriptor of at most `maxfd`, and every watched descriptor is at most `maxfd`; when a slot is free, the new descriptor is watched |
| ConnectionPool.Visit | task_1/stockserver.c:155-205 | one loop pass: only a slot holding a descriptor above 0 that is in the ready set is serviced, and it lowers `nready` by 1; end-of-file frees the slot and unwatches its descriptor; `maxi`, `maxfd` and the ready set never change; at most one reply is written, to the slot's descriptor, and it is a buy or sell reply |
| ConnectionPool.VisitAnswers | task_1/stockserver.c:158-196 | one loop pass writes exactly one reply when the slot is serviced and its line is a buy or sell whose two numbers parse, and none otherwise |
| ConnectionPool.Sweep | task_1/stockserver.c:154-207 | the loop of `check_clients`, by definition: from slot `i`, while `i <= maxi` and `nready > 0`, one `Visit` per slot, threading the pool and the store and collecting the replies in order |
| ConnectionPool.SweepEffect | task_1/stockserver.c:154-207 | the sweep keeps `maxi`, `maxfd` and the ready set. It stops at or before `maxi + 1`, and earlier only when `nready` has reached 0. `nready` drops by the number of serviced slots it passed. Only slots it reached, serviced and found at end-of-file change, and each becomes -1. The read set loses exactly those slots' descriptors |
| ConnectionPool.SweepWrites | task_1/stockserver.c:154-196 | the descriptors a sweep writes to are exactly those of the slots it reached that were serviced and sent a recognised buy or sell, one reply each, in slot order; so at most one reply per serviced slot, each to a ready descriptor above 0, and each one of the three buy/sell replies |
| ConnectionPool.SweepPreservesInvariant | task_1/stockserver.c:154-207 | `check_clients` keeps the pool invariant; end-of-file never lowers `maxi` |
| ConnectionPool.Pool.CheckClients | task_1/stockserver.c:146-208 | the loop leaves the pool, the store and the replies exactly as `Sweep` from slot 0 of the old state says, and the pool stays valid |
| ConnectionPool.Pool.ServeSlot | task_1/stockserver.c:155-205 | the loop body at one slot does exactly what `Visit` says |
| Commands.CStr | task_1/stockserver.c:175-188 | the line as the string functions see it: the longest prefix without NUL, cut exactly at the first NUL |
| Commands.HasPrefix | task_1/stockserver.c:175-188 | by definition, the C string starts with the literal command word |
| Commands.StrncmpIsPrefix | task_1/stockserver.c:175-188 | `strncmp(buf, p, n) == 0` with `n` the length of `p`, defined character by character with its stop at a shared NUL (`StrNEqual`), holds exactly when `HasPrefix(CStr(buf), p)`, for any literal `p` without NUL |
| Commands.ShowRequested | task_1/stockserver.c:168 | the show test, by definition `4 == 0`: the comma expression discards `buf` and `"show"`, so it is false for every line |
| Commands.Classify | task_1/stockserver.c:164-196 | a line is never classified as show; a buy (sell) result means the C string starts with `buy ` (`sell `) and `%d %d` reads exactly those two numbers after the prefix |
| Commands.ClassifyComplete | task_1/stockserver.c:175-191 | conversely, a `buy ` or `sell ` prefix followed by two readable numbers is that command; a line starting with neither prefix is no command |
| Commands.Respond | task_1/stockserver.c:168-196 | a reply is produced exactly when a command was recognised. Buy replies `[buy] success` or `Not enough left stock` according to `buy_stock`'s result and takes its store. Sell replies `[sell] success` and takes `sell_stock`'s store. No command leaves the store unchanged |
| Commands.ProcessLine | task_1/stockserver.c:164-196 | the dispatch with its `command_was_processed` flag does exactly what `Respond(Classify(line))` says: at most one branch runs, and never the show branch |
| Commands.ClassifyFormatted | task_1/stockserver.c:175-191 | `buy`/`sell` followed by two numbers printed with `%d`, a blank between them and a newline, is recognised as that command with those numbers |
| Commands.CommandReplies | task_1/stockserver.c:168-196 | end to end: a printed buy or sell command gets its reply and store; `show` and any line with neither prefix get no reply and leave the store alone |
| Decimal.FormatInt | task_1/stockserver.c:231-234 | by definition, what `%d` prints: a minus sign for a negative value, then the decimal digits without leading zeros; its contract gives a non-empty result starting with a sign or a digit |
| Decimal.ScanTwoInts | task_1/stockserver.c:178-191 | by definition, `sscanf(s, "%d %d", ...) == 2`: two `%d` conversions in a row, each skipping white space and reading an optional sign and at least one digit; what follows is ignored |
| Decimal.ScanFormatInt | task_1/stockserver.c:178 | a `%d` scan reads back exactly the value `%d` printed, when no digit follows |
| Decimal.ScanTwoFormatted | task_1/stockserver.c:178 | `sscanf(s, "%d %d", ...)` reads back two numbers printed with `%d` and a blank between them |
| StockTree.StockLine | task_1/stockserver.c:231-234 | by definition, the line `sprintf` writes for one item: ID, stock left and price with `%d`, blank-separated, ending in a newline |
| StockTree.ShowStock | task_1/stockserver.c:227-243 | by definition, what `show_stock` appends: the node's line, then the left child's listing, then the right child's, a child visited only when not NULL; the node itself is never NULL |
| StockTree.ShowStockIsPreOrder | task_1/stockserver.c:227-243 | `show_stock` of a non-null node is the listing lines of the tree's items in pre-order: node, then left subtree, then right subtree |
| StockTree.ShowStockRoundTrip | task_1/stockserver.c:227-243 | for a listing that fits the buffer it is written into, the listing loses nothing: reading it back line by line gives the tree's items in pre-order |
| StockTree.ListingIsNotKeyOrder | task_1/stockserver.c:227-243 | for a search tree whose left child holds the smaller ID, the listing starts with the root; the order is not key order |

## Left out

- `main`'s loop is not modelled; the pool operations are. That leaves out:
  - `select`: which descriptors are ready, and the count it returns, are
    inputs held in the pool state;
  - `accept` and `getnameinfo`, and the connection message.
- Reading a client line is the parameter `incoming`, which gives one line
  per descriptor; the empty line stands for end-of-file. The Rio read
  buffers in the pool are not modelled. So the following are not captured:
  - the per-slot buffer copy on line 156, which loses bytes buffered
    beyond the first line;
  - the `MAXLINE` limit on a line's length;
  - the byte counts and log lines.
- The echo of each received line back to the client (line 163) is left out.
  So are the `close` of a finished connection and the `printf` logging.
- Only the text of each reply is modelled. Every reply write sends
  `MAXLINE` bytes of the output buffer, which is not modelled.
- `buy_stock` and `sell_stock` have no definition in the source. They stay
  abstract functions over a store of unknown type. Stock quantities, prices
  and the items' reader counts and semaphores are therefore not modelled.
- `sigint_handler`, `save_stock` and `load_stock` are file I/O (and
  `load_stock` is empty), so they are left out. `strsave` and `freenode`
  are not part of this model.
- The `root` global is a parameter. Nothing in the modelled code changes
  it.
- `show_stock` with a NULL node is not modelled. The function reads the
  node's children unconditionally, so `Commands.Respond` requires a tree
  whenever the (unreachable) show branch would run.
- `Decimal.ScanInt`: integers are unbounded, so `%d` overflow of a C `int`
  (undefined behaviour in `sscanf`) is not modelled.
- `StockTree.StockLine`: an item's `ID`, `left_stock` and `price` are C
  `int`s in the source; here they are unbounded integers, so the 32-bit
  range of the values `show_stock` prints is not modelled.
- `StockTree.ShowStock`: the listing is an unbounded string here. In the
  source, `show_stock` appends each line with `strcat` into the caller's
  `MAXLINE`-byte `output_buf` without checking its size, so a listing of
  `MAXLINE` bytes or more overflows that buffer. The model does not capture
  this overflow, and `StockTree.ShowStockRoundTrip` holds only for a listing
  that fits the buffer.
- `ConnectionPool.Pool.AddClient`: a descriptor at or above `FD_SETSIZE` is
  added to the read set like any other. The bound checking that `FD_SET`
  would need is not modelled.
- `ConnectionPool.Pool.AddClient`: when the pool is full, the server stops
  after `add_client`. Here the method returns no slot and leaves the
  stopping to its caller.
