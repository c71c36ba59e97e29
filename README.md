# Testing-tutorial components, modelled and verified in Dafny

This project models the small components that the Python testing tutorials exercise:

- the in-memory table store of the fixtures lesson;
- the connection-gated store of the mocking lesson;
- the mocking lesson's query client, with its `SELECT`/`INSERT` mini-language and retry loop;
- the shopping cart of the behaviour-driven lesson;
- the data validators (Luhn card check, phone pattern, dictionary schema, `User` and `Product`);
- the order processor;
- the string utilities (`reverse`, `is_palindrome`).

Code that changes objects in place is modelled as Dafny classes with `modifies` clauses:

- the stores, the connection, the client, the cart and the orders;
- each method's `ensures` relates the new state to a value-level function of the old state.

Pure code (`get_config`, query parsing, the validators' predicates, the string utilities) is modelled as functions. The properties the code and its tests promise are proved as lemmas about those functions.

Modules:

- `Wrappers`: `Option`, Python exceptions and the outcome of an operation that may raise.
- `Chars`: ASCII character classes and `str.lower`.
- `Sequences`: reversal.
- `PyValues`: dictionary values, `isinstance`, and the key equality of `dict` (`True == 1`).
- `Store`: the value-level view of a table store (lookup, create table, put, remove, `dict.update`).
- `Records`: record dictionaries as heap objects, and the invariant that ties a store's objects to its value-level contents.
- `TextSplit`: `str.split(sep)`, `str.split()`, `str.strip()` and `str.join`, with their laws.
- `FixtureDatabase`: `src/03_fixtures/database.py`.
- `MockingDatabase`: `src/04_mocking/database.py`.
- `DatabaseClient`: `src/04_mocking/database_client.py`.
- `ShoppingCart`: `src/09_bdd_integration/shopping_cart/cart.py`.
- `DataValidator`: `src/08_data_driven/data_validator.py`.
- `OrderProcessor`: `src/07_test_organization/order_processor.py`.
- `StringUtils`: `src/02_pytest_basics/string_utils.py`.

The two stores hold their records as objects, and `Get` returns the stored object itself, as `get` hands out the stored dictionary. A caller can therefore change a stored record through it, and the model keeps this aliasing:

- `Contents()` is a ghost function computed from the stored objects' current fields: the records as values, which is what every `get` would show. A change made through a returned record shows up in it.
- The `Valid()` invariant says only that the stored record objects are pairwise distinct (every stored record is a fresh dictionary). A caller's change to a record's fields does not affect it.
- `Insert` and `Delete` also promise that every other entry still holds the same object, so a record obtained earlier stays the stored one.
- Ids are dictionary keys, and Python finds the same entry for `True` and `1` (and for `False` and `0`). Every store operation therefore stores and looks up an id by `PyValues.Key`, which maps a boolean to the integer it equals.

`update` (`src/03_fixtures/database.py:32`, `src/04_mocking/database.py:96`) merges `new_data` as is, so it can overwrite a record's `"id"` field while the record stays under its old key. `Store.Merge` does the same.

## Model

| member | source | states |
|---|---|---|
| PyValues.Key | src/03_fixtures/database.py:21 | the dictionary key of an id: a boolean becomes the integer it equals, every other value stays, and the key equals the value under Python's `==` |
| PyValues.KeySameEntry | src/03_fixtures/database.py:25 | two ids find the same dictionary entry exactly when Python's `==` holds between them (`True` and 1, `False` and 0) |
| Store.WithTable | src/03_fixtures/database.py:15-16 | creating a missing table adds exactly that table and changes no lookup; an existing table is left as it is |
| Store.Put | src/03_fixtures/database.py:21 | storing under (table, id) makes that lookup give the record and leaves every other (table, id) lookup and the set of tables unchanged |
| Store.Remove | src/03_fixtures/database.py:40 | deleting (table, id) makes that lookup give nothing, keeps every table and leaves every other lookup unchanged |
| Store.Patched | src/03_fixtures/database.py:32 | `dict.update`: keys of the patch take the patch's values, other keys keep theirs, the key set is the union |
| Store.Merge | src/03_fixtures/database.py:32 | updating an existing record patches exactly that record and leaves every other lookup unchanged |
| Store.PatchedThenSet | src/04_mocking/database.py:96-97 | merging then setting `updated_at` equals merging the patch extended with `updated_at` |
| FixtureDatabase.Database.constructor | src/03_fixtures/database.py:9-11 | a new database is valid and empty |
| FixtureDatabase.Database.Insert | src/03_fixtures/database.py:13-21 | raises "Record must have an 'id' field" exactly when `"id"` is missing, after creating the table; otherwise stores a fresh copy under the `Key` of its id (overwriting), with no other lookup changed and every other entry still holding the same object |
| FixtureDatabase.Database.Get | src/03_fixtures/database.py:23-25 | gives the stored object itself when (table, `Key(id)`) is present and null otherwise, in agreement with the contents, in any state (also after a caller changed a returned record) |
| FixtureDatabase.Database.Update | src/03_fixtures/database.py:27-33 | true exactly when (table, `Key(id)`) is present; then the stored object is patched in place with `new_data` and no other lookup changes; otherwise nothing changes |
| FixtureDatabase.Database.Delete | src/03_fixtures/database.py:35-41 | true exactly when (table, `Key(id)`) is present; then that entry is removed and every other entry keeps its object; otherwise nothing changes |
| FixtureDatabase.Database.Clear | src/03_fixtures/database.py:43-45 | no tables remain, so every lookup gives nothing |
| MockingDatabase.Connection.constructor | src/04_mocking/database.py:11-15 | a new connection has the given host and port and is not connected |
| MockingDatabase.Connection.Connect | src/04_mocking/database.py:17-23 | afterwards connected, and returns true |
| MockingDatabase.Connection.Disconnect | src/04_mocking/database.py:25-31 | afterwards not connected, whatever the state before |
| MockingDatabase.Database.constructor | src/04_mocking/database.py:36-39 | a new database uses the given connection and is valid and empty |
| MockingDatabase.Database.Insert | src/04_mocking/database.py:41-67 | true exactly when connected and the record has an `"id"`; then stores, under the `Key` of its id, a fresh record of its fields plus `created_at`; disconnected changes nothing; a missing id only creates the table; every other entry keeps its object |
| MockingDatabase.Database.Get | src/04_mocking/database.py:69-82 | null when disconnected; otherwise the object stored under (table, `Key(id)`), or null when absent, in agreement with the contents in any state |
| MockingDatabase.Database.Update | src/04_mocking/database.py:84-104 | true exactly when connected and (table, `Key(id)`) is present; then merges `new_data` and stamps `updated_at`; otherwise nothing changes |
| MockingDatabase.Database.Delete | src/04_mocking/database.py:106-124 | true exactly when connected and (table, `Key(id)`) is present; then removes the entry and every other entry keeps its object; otherwise nothing changes |
| TextSplit.JoinSplit | src/04_mocking/database_client.py:69 | `sep.join(s.split(sep)) == s`: joining the pieces of a split with the separator gives back the text |
| TextSplit.SplitCount | src/04_mocking/database_client.py:63 | `split` gives one piece exactly when the separator does not occur |
| TextSplit.SplitFirst | src/04_mocking/database_client.py:63 | the first piece is the text before the first occurrence; the rest are the pieces of the text after it |
| TextSplit.WordsJoin | src/04_mocking/database_client.py:67 | `" ".join(words).split()` gives back the words when none is empty or holds whitespace |
| TextSplit.StripPadded | src/04_mocking/database_client.py:63 | `strip` removes a leading blank from a word that neither starts nor ends with whitespace |
| DatabaseClient.Config | src/04_mocking/database_client.py:39-49 | the configuration has exactly the three keys with values "100", "30" and "3" |
| DatabaseClient.Client.constructor | src/04_mocking/database_client.py:18-23 | a new client has the given host and port, is not connected and has no data |
| DatabaseClient.Client.Connect | src/04_mocking/database_client.py:25-30 | afterwards connected, returns true, data unchanged |
| DatabaseClient.Client.Disconnect | src/04_mocking/database_client.py:32-37 | afterwards not connected, data unchanged |
| DatabaseClient.Client.ExecuteQuery | src/04_mocking/database_client.py:51-78 | disconnected: `None` and no change; connected: the result and new store are those of the query's parse |
| DatabaseClient.Client.BackupData | src/04_mocking/database_client.py:80-95 | true exactly when connected |
| DatabaseClient.Client.QueryWithRetry | src/04_mocking/database_client.py:97-119 | no attempt when `max_retries <= 0`; otherwise between 1 and `max_retries` attempts, all of them on `None`; the outcome equals one execution of the query, since a failed query repeats as a failure with no further change |
| DatabaseClient.FailureIsStable | src/04_mocking/database_client.py:102-108 | a query that failed fails again on the store it left, and changes nothing more |
| DatabaseClient.AddPairsDefined | src/04_mocking/database_client.py:69 | `dict(item.split("=") ...)` succeeds exactly when every item splits into two pieces |
| DatabaseClient.AddPairsKeys | src/04_mocking/database_client.py:69 | the record's keys are exactly the texts before "=" |
| DatabaseClient.AddPairsLastWins | src/04_mocking/database_client.py:69 | a repeated key takes the value of its last item |
| DatabaseClient.InsertShape | src/04_mocking/database_client.py:65-68 | `INSERT INTO t VALUES pairs` is an INSERT, not a SELECT, and splits into its five words |
| DatabaseClient.InsertStores | src/04_mocking/database_client.py:65-73 | such an INSERT stores the record built from the pairs under its `"id"` and returns it; without `"id"` it fails after creating the table |
| DatabaseClient.SelectReads | src/04_mocking/database_client.py:62-64 | a SELECT reads the table named by the stripped text between its first "FROM" and the next one or the end (an empty mapping when absent), changing nothing |
| DatabaseClient.SelectWithoutFrom | src/04_mocking/database_client.py:62-78 | a SELECT without "FROM" gives `None` and changes nothing |
| DatabaseClient.SelectExample | src/04_mocking/database_client.py:62-64 | `SELECT * FROM users` reads the `users` table |
| ShoppingCart.CartItem.Total | src/09_bdd_integration/shopping_cart/cart.py:21-24 | price times quantity: nothing for no units, not negative for a price and quantity that are not, at least the price for a positive price and quantity |
| ShoppingCart.TotalBounds | src/09_bdd_integration/shopping_cart/cart.py:66-69 | with positive quantities and no negative price, the cart total is not negative and at least any one line's total |
| ShoppingCart.Find | src/09_bdd_integration/shopping_cart/cart.py:38 | finds a line exactly when the id is in the cart, and the line found carries that id |
| ShoppingCart.TotalAppend | src/09_bdd_integration/shopping_cart/cart.py:66-69 | a new line raises the total by that line's price times quantity |
| ShoppingCart.TotalReplace | src/09_bdd_integration/shopping_cart/cart.py:66-69 | replacing a line changes the total by the difference of the line totals |
| ShoppingCart.TotalRemove | src/09_bdd_integration/shopping_cart/cart.py:66-69 | dropping a line lowers the total by that line's total |
| ShoppingCart.DistinctCount | src/09_bdd_integration/shopping_cart/cart.py:61-64 | with distinct ids, the number of lines equals the number of product ids |
| ShoppingCart.AddedKeeps | src/09_bdd_integration/shopping_cart/cart.py:33-44 | adding a positive quantity keeps ids distinct and quantities positive and adds the id; the line's quantity grows by the amount, an existing line keeps its stored product (a new line holds the given one), and the total grows by that product's price times the amount |
| ShoppingCart.RemovedKeeps | src/09_bdd_integration/shopping_cart/cart.py:46-48 | removing drops exactly the id and lowers the total by the removed line's total, by nothing when it was absent |
| ShoppingCart.RequantifiedKeeps | src/09_bdd_integration/shopping_cart/cart.py:50-55 | setting a positive quantity keeps the ids and moves the total by price times the change |
| ShoppingCart.CartExample | src/09_bdd_integration/shopping_cart/cart.py:33-44 | two of a 10.00 product and one of a 20.00 product make two lines totalling 40.00; re-adding the first product at another price charges the stored price |
| ShoppingCart.Cart.constructor | src/09_bdd_integration/shopping_cart/cart.py:29-31 | a new cart is valid and has no lines |
| ShoppingCart.Cart.GetItem | src/09_bdd_integration/shopping_cart/cart.py:57-59 | a line exactly when the id is in the cart, and that line carries the id |
| ShoppingCart.Cart.Items | src/09_bdd_integration/shopping_cart/cart.py:61-64 | one line per product id in the cart: the ids are distinct and exactly the cart's ids, and each line is the one `get_item` finds for its id |
| ShoppingCart.Cart.Total | src/09_bdd_integration/shopping_cart/cart.py:66-69 | the sum of the line totals: 0 for no lines, and for positive quantities and no negative price, not negative and at least any one line's total |
| ShoppingCart.Cart.IsEmpty | src/09_bdd_integration/shopping_cart/cart.py:71-74 | true exactly when there are no lines, that is, no product ids |
| ShoppingCart.Cart.AddItem | src/09_bdd_integration/shopping_cart/cart.py:33-44 | raises "Quantity must be positive" and changes nothing for quantity <= 0; otherwise the lines become `Added`; the invariant (distinct ids, positive quantities) is kept |
| ShoppingCart.Cart.RemoveItem | src/09_bdd_integration/shopping_cart/cart.py:46-48 | the lines become `Removed`, with no error for an absent id; the invariant is kept |
| ShoppingCart.Cart.UpdateQuantity | src/09_bdd_integration/shopping_cart/cart.py:50-55 | quantity <= 0 removes the line; otherwise an existing line takes the quantity and an absent id changes nothing; the invariant is kept |
| ShoppingCart.Cart.Clear | src/09_bdd_integration/shopping_cart/cart.py:76-78 | no lines remain: the cart is empty and its total is 0 |
| DataValidator.Digits | src/08_data_driven/data_validator.py:84 | one value in 0..9 per character, the digit's value |
| DataValidator.RightSumCons | src/08_data_driven/data_validator.py:89-96 | one more digit on the left is doubled exactly when an even number of digits lie to its right |
| DataValidator.ValidateCardNumber | src/08_data_driven/data_validator.py:76-99 | true exactly when the string is a non-empty digit string passing the Luhn rule |
| DataValidator.VisaExamples | src/08_data_driven/test_data_validator.py:47-48 | 4532015112830366 is valid; ending it in 7 makes it invalid |
| DataValidator.ShortCardExamples | src/08_data_driven/test_data_validator.py:49-50 | "12345" and "invalid" are not valid |
| DataValidator.PhonePatternShape | src/08_data_driven/data_validator.py:72 | `\+?1?\d{9,15}` matches all of a string exactly when it is an optional '+' then 9 to 15 digits, or 16 digits starting with '1' |
| DataValidator.ValidatePhone | src/08_data_driven/data_validator.py:69-73 | true exactly when the phone, or the phone without one final line feed, has that shape |
| DataValidator.PhoneExamples | src/08_data_driven/test_data_validator.py:39-44 | "+1234567890" and "+441234567890" are accepted; "12345" and "invalid" are not |
| DataValidator.ValidateDict | src/08_data_driven/data_validator.py:101-109 | true exactly when every required field is present with a value of its class; false names the first field, in order, that is missing or mistyped |
| DataValidator.DictExamples | src/08_data_driven/test_data_validator.py:106-113 | the conforming dictionary passes; a string age and a missing age fail |
| DataValidator.EmailPatternShape | src/08_data_driven/data_validator.py:27 | `[a-zA-Z0-9._%+-]+@[a-zA-Z0-9.-]+\.[a-zA-Z]{2,}` matches all of a string exactly when its first '@' ends a non-empty local part, its last '.' ends a non-empty domain after it, and two or more letters follow that dot |
| DataValidator.MatchEmail | src/08_data_driven/data_validator.py:27-29 | true exactly when the email, or the email without one final line feed, has that shape |
| DataValidator.User.IsValid | src/08_data_driven/data_validator.py:16-31 | true exactly when the name is non-empty, the age lies strictly between 18 and 100, and the email matches |
| DataValidator.UserExamples | src/08_data_driven/data_validator.py:16-31 | a named 30-year-old with a well-formed email is valid; an empty name, age 18, age 100 and the one-letter top level of "a@b.c" are not |
| DataValidator.Product.IsValid | src/08_data_driven/data_validator.py:41-55 | the four early returns accept exactly a non-empty id and name, a positive price and a stock that is not negative |
| DataValidator.ProductExamples | src/08_data_driven/data_validator.py:41-55 | a product is rejected for an empty id, an empty name, a price that is not positive or a negative stock, and accepted otherwise |
| OrderProcessor.ValidTotalNonNegative | src/07_test_organization/order_processor.py:50 | the total of an order with positive quantities and prices that are not negative is not negative |
| OrderProcessor.Order.constructor | src/07_test_organization/order_processor.py:25-31 | a new order is PENDING with no total |
| OrderProcessor.Processor.constructor | src/07_test_organization/order_processor.py:36-39 | keeps the database URL and the platform name |
| OrderProcessor.Processor.ProcessOrder | src/07_test_organization/order_processor.py:41-65 | raises "Order must contain items" on an empty order and leaves its status and total; otherwise the total is the sum of quantity times price and the status COMPLETED |
| OrderProcessor.Processor.BulkProcess | src/07_test_organization/order_processor.py:67-69 | all orders non-empty: one true per order, every order processed; otherwise the first empty order raises, the orders before it processed, the rest untouched |
| OrderProcessor.Processor.ValidateOrder | src/07_test_organization/order_processor.py:71-83 | true exactly when both ids are non-empty, there are items, and every item has a positive quantity and a price that is not negative |
| OrderProcessor.OrderExamples | src/07_test_organization/test_order_processor.py:9-80 | the sample order (lines 9-16, checked at 41-49) is valid with total 40.00; the five malformed orders (lines 71-80) are rejected |
| StringUtils.Reverse | src/02_pytest_basics/string_utils.py:9-13 | same length, and character k is character n-1-k of the input |
| StringUtils.ReverseTwice | src/02_pytest_basics/string_utils.py:13 | reversing twice gives back the text |
| StringUtils.ReverseExamples | src/02_pytest_basics/test_string_utils.py:7-13 | "hello" reverses to "olleh" and "" to "" |
| StringUtils.WithoutBlanks | src/02_pytest_basics/string_utils.py:21 | the result is no longer than the text and holds no blank |
| StringUtils.MirroredIffReversed | src/02_pytest_basics/string_utils.py:22 | a text equals its reverse exactly when every character equals its mirror image |
| StringUtils.IsPalindrome | src/02_pytest_basics/string_utils.py:16-22 | true exactly when the text without blanks, lower-cased, is mirrored |
| StringUtils.BlanksAppend | src/02_pytest_basics/string_utils.py:21 | removing blanks distributes over concatenation |
| StringUtils.BlankIgnored | src/02_pytest_basics/string_utils.py:16-22 | inserting a blank anywhere does not change the answer |
| StringUtils.BlanksLower | src/02_pytest_basics/string_utils.py:21 | removing blanks and lower-casing commute |
| StringUtils.CaseIgnored | src/02_pytest_basics/string_utils.py:16-22 | lower-casing the text first does not change the answer |
| StringUtils.PalindromeExamples | src/02_pytest_basics/test_string_utils.py:21-30 | "radar", "" and "a" are palindromes |
| StringUtils.PanamaExample | src/02_pytest_basics/test_string_utils.py:25 | "A man a plan a canal Panama" is a palindrome |
| StringUtils.NotPalindrome | src/02_pytest_basics/string_utils.py:16-22 | a lower-case word with a letter that differs from its mirror image is not a palindrome |
| StringUtils.NotPalindromeExamples | src/02_pytest_basics/test_string_utils.py:32-40 | "hello", "python" and "test" are not palindromes |

## Left out

- `time.sleep`, logging and the clock: sleeps and log calls have no effect on results and are dropped. `datetime.now()` becomes the caller-supplied `now` parameter of `MockingDatabase.Database.Insert` and `Update`, stored as an opaque stamp.
- `platform.system()` becomes a constructor parameter of `OrderProcessor.Processor`. The extra Windows sleep has no other effect and is dropped.
- The `FAILED` branch of `process_order` is not reachable: summing integer quantity times price cannot raise once prices are whole cents. The `Failed` status exists but no operation sets it.
- OrderProcessor.Processor.BulkProcess: like the list comprehension, it stops at the first empty order and reports its exception. Python then returns no list, while the model also hands back the results gathered so far; callers should ignore them.
- Decimal and float prices are integers in cents, so totals are exact; float rounding is not modelled.
- Characters are ASCII: `str.lower`, `\d`, `isdigit` and `isspace` follow their ASCII behaviour, not Unicode.
- `DataValidator.validate_date` depends on `strptime`, and is not part of this model.
- The `isinstance` checks on `str` arguments that raise `TypeError` (`string_utils.py:11-12`, `18-19`), and the `isinstance` guards on name, age, id, price and stock in `User.is_valid` and `Product.is_valid`. Dafny's types make them vacuous. An age or price given as a float is not modelled.
- `validate_dict` receives the required fields as a sequence in the dictionary's iteration order. Only `str`, `int` and `bool` are modelled as field classes.
- DatabaseClient.Client.ExecuteQuery: the returned dictionary is a value, so the aliasing between the returned row (or table) and the stored one is not modelled.
- ShoppingCart.Cart.GetItem and `Items` return values, not the stored `CartItem` objects, so a caller's change through a returned item is not modelled. Likewise a line holds a copy of the `Product` it was added with, while the source keeps a reference to the caller's object (`cart.py:18`, `44`): a later change to that product's price changes the source's `total` but not the model's.
- Default arguments are not modelled: every caller passes all arguments. This covers `host="localhost", port=5432` (`src/04_mocking/database.py:11`, `src/04_mocking/database_client.py:18`), `max_retries=3` (`database_client.py:97`) and `quantity=1` (`cart.py:33`).
- DatabaseClient.Client.QueryWithRetry: its `calls` count is a ghost result; the log messages and waits between attempts are not modelled.
- DatabaseClient.Client.BackupData: writes no file in the source either; only the connection check is modelled.
- The weather service, file processor, logger, data processor and calculator are not part of this model (network, file system, logging and floating point).
- The test modules, fixtures and mocks are not modelled; a few of their concrete cases appear as example lemmas.
