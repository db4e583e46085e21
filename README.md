# Location app front end: a Dafny model of `main.js`

The location app's front end is a single script that does the following:

1. It asks a location service for the list of tracked names.
2. If that list is unavailable, it authenticates, which means fetching a login URL and redirecting the page to it.
3. It builds an OpenLayers map with a vector layer.
4. It writes a `<select>` of names as HTML text. Each option's value is the decimal text of an id.
5. On the update button, it parses the selected value back with `parseInt`. It then looks up that id's location and draws it as an accuracy circle plus a marker.
6. On the locate button, it fits the view to what is drawn.
7. At start-up, it runs one update and one zoom.

This project models that behaviour in Dafny and proves what each step promises. It has six modules:

- `Wrappers` holds the `Option` type. `None` stands for the script's `null`, `undefined` and `NaN`.
- `Decimal` models how `Number.prototype.toString` renders an integer id. It also models ECMAScript `parseInt` without a radix: skip `StrWhiteSpace`, read one optional sign, take a `0x`/`0X` prefix as hexadecimal, and read the longest run of digits. `NaN` comes out as `None`. It proves that `parseInt(String(n)) == n` for every integer `n`.
- `NameSelect` models `getNameSelect` as an imperative method. A builder array of strings gets pushed to and then joined. The method is proved against `SelectMarkup`, a functional description of the markup. The following facts are proved about `SelectMarkup`:
  - its framing;
  - that it keeps the list order;
  - that it holds one `<option` per pair, plus any the labels themselves carry;
  - that the value of each option reads back, through `parseInt`, as that pair's id.
- `ServiceClient` models `getLocation`, `listNames` and `authenticate`, and the authentication branch at the top of `main`. Each is a function from the service's response (`ok`, decoded body) to the script's result and the events it causes. An event is either a request sent or a page redirect.
- `MapView` covers the map side of the page:
  - the vector source as a class holding its feature list;
  - the view as a class holding the `fit` calls made on it;
  - a `MapSession` holding both, with `updateLocation` and `zoomIn` as methods that update them in place.
- `App` models the update button's handler and `main`'s start-up sequence, built from the parts above.

The network is not part of the model. Each answer from the service is an input: one for the list, one for the auth URL, and a function from id to the answer of a location lookup.

Labels go into the markup verbatim, because the script escapes nothing. The count lemmas state how many `<option` starts a label adds to the element.

Where the code and the behaviour one might expect from its design differ, the model follows the code:

- When the list is `null`, the code does not continue with an empty selector. `getNameSelect(null)` fails on `for…of null` at `main.js:97`. Start-up therefore ends once the map is built: no selector, no controls, no initial location. The redirect to the login page has already been issued by then. `App.Start` returns `None` for the selector in that case.
- Pressing the update button with no option selected does not fetch anything. An empty list gives a `selectedIndex` of -1, and reading `options[-1].value` fails first. `App.OnUpdateButton` reports this as `NoSelection`.
- A failed lookup makes `getLocation` return `null`. The handler then fails on `location.latitude` and leaves the map as it was. `App.OnUpdateButton` reports `LocationUnavailable(id)`.
- In both failure cases, the start-up's `await onUpdateButton()` rejects, so `zoomIn()` is not reached.

## Model

| member | source | states |
|---|---|---|
| Decimal.NatToDecimal | main.js:42 | The decimal text of a natural number is non-empty and made only of digits. It has no leading zero, except for "0" itself. |
| Decimal.IntToDecimal | main.js:42 | An id's text starts with '-' exactly when the id is negative, and only digits follow the sign. There is no leading zero after the sign, and the text is "0" itself whenever its first digit is '0'. This is the canonical form `toString()` writes. |
| Decimal.TrimStart | main.js:107 | `parseInt` skips exactly the leading white space and line terminators: what remains is a suffix that does not start with one. |
| Decimal.DigitRun | main.js:107 | `parseInt` reads the longest prefix of digits in the radix: all of it is digits, and the next character is not a digit. |
| Decimal.NatToDecimalValue | main.js:42 | The value of the rendered decimal digits is the number itself. |
| Decimal.MagnitudeOfDecimal | main.js:107 | The magnitude `parseInt` reads from a rendered number is that number. A leading zero is never taken for a hexadecimal prefix. |
| Decimal.ParseMagnitude | main.js:107 | After the sign, the radix is 16 exactly after a `0x`/`0X` prefix and 10 otherwise. The result is NaN exactly when no digit of that radix follows, and otherwise it is the value of the longest digit run. |
| Decimal.ParseInt | main.js:107 | `parseInt` gives NaN exactly when no digits follow the white space, the one optional sign and the optional hexadecimal prefix. A '-' negates the magnitude, and a '+' or no sign keeps it. |
| Decimal.ParseIntSkipsWhiteSpace | main.js:107 | `parseInt` reads the same number whether or not the leading white space is there. |
| Decimal.ParseIntRoundTrip | main.js:107 | `parseInt` of the text `toString` writes for any integer id gives back that id, with negative ids included. |
| NameSelect.Join | main.js:48 | `join('')` of no strings is the empty text, and of one string is that string. |
| NameSelect.JoinAppend | main.js:48 | Joining two arrays one after the other gives the two joined texts concatenated: `join('')` puts nothing between the strings. |
| NameSelect.Push | main.js:41-47 | One `push` appends the string to the builder, and the joined text grows by exactly that string. |
| NameSelect.PushOption | main.js:41-45 | The five pushes of one loop iteration extend the joined text by exactly that pair's option. |
| NameSelect.GetNameSelect | main.js:38-49 | The returned HTML is the opening `<select name="name" id="nameselect" class="select-internal">` tag. Next comes one `<option value="id">label</option>` per pair, in list order. Last comes `</select>`. The loop invariant ties the builder's joined text to the options of the pairs done so far. |
| NameSelect.EmptySelect | main.js:39-48 | An empty list gives the bare select element: the opening tag directly followed by `</select>`. |
| NameSelect.SelectMarkupFraming | main.js:39-47 | Whatever the list, the markup starts with the opening tag and ends with `</select>`. |
| NameSelect.OptionsMarkupConcat | main.js:40-46 | The options of a concatenated list are the options of its two parts one after the other, so input order is kept. |
| NameSelect.OptionAt | main.js:40-46 | Pair `i`'s option sits between the options of the pairs before it and those after it. |
| NameSelect.OptionMarkupCount | main.js:41-45 | One option holds one `<option` start of its own, plus those inside its label. The id text never holds one. |
| NameSelect.SelectMarkupCount | main.js:38-49 | The whole element holds one `<option` start per pair, plus the ones inside the labels. Neither the opening tag nor `</select>` adds any, and none arises across a seam. |
| NameSelect.OptionCountMatchesPairs | main.js:38-49 | When no label contains `<option`, the element holds exactly as many `<option` starts as there are pairs. |
| NameSelect.UpToQuote | main.js:107 | Reading an attribute value stops at the first '"': the result is the longest prefix without a quote. |
| NameSelect.OptionValueRoundTrip | main.js:41-43 | The value attribute of the option written for a pair is the decimal text of its id, and `parseInt` of it is the id again. |
| ServiceClient.ListNames | main.js:21-27 | One list request is sent. The result is `null` exactly when the response is not OK, and otherwise it is the body. |
| ServiceClient.GetLocation | main.js:12-19 | One lookup of that id is sent. The result is `null` exactly when the response is not OK, and otherwise it is the body. |
| ServiceClient.Authenticate | main.js:29-36 | Exactly one auth-URL request is sent, and no other request. When the response is OK it is followed by one redirect to the body's `url`, and nothing comes after that redirect. When the response is not OK, nothing else happens. |
| ServiceClient.StartupAuth | main.js:52-55 | The list request comes first and is sent exactly once. An OK list, even an empty one, sends nothing else. A `null` list adds exactly one auth-URL request. When the list failed and the auth response is OK, exactly one redirect follows, to the auth response's `url`, and nothing happens after it. The event count is 1, 2 or 3 accordingly. |
| ServiceClient.FailedListRedirects | main.js:52-55 | A failed list with an OK auth answer yields exactly the list request, the auth-URL request and the redirect, in that order. |
| ServiceClient.EmptyListSkipsAuthentication | main.js:52-55 | An OK response with an empty list sends the list request and nothing else, and yields the empty list. |
| MapView.LocationFeatures | main.js:76-86 | The drawn features are an accuracy region of radius `acc`, then a marker. Both are centred at the same coordinate, longitude first. |
| MapView.LocationFeaturesInjective | main.js:76-86 | The drawing determines the latitude, longitude and accuracy it was made from. |
| MapView.DisplayIsLocationFeatures | main.js:76-86 | Every display of one location (a region and a marker with one centre) is the drawing of its centre and radius. |
| MapView.VectorSource.Clear | main.js:79 | The source holds no features afterwards. |
| MapView.VectorSource.AddFeatures | main.js:80-85 | The features are appended after those already held. |
| MapView.VectorSource.IsEmpty | main.js:123 | `isEmpty()` holds exactly when the source holds no feature. |
| MapView.VectorSource.GetExtent | main.js:124 | `getExtent()` covers exactly the features the source holds (the extent is kept symbolic). |
| MapView.View.Fit | main.js:124-127 | The view records exactly one more fit request, with the given extent and options. |
| MapView.MapSession.constructor | main.js:57-73 | The map starts with a fresh, empty vector source and a view with no fit requests. |
| MapView.MapSession.UpdateLocation | main.js:76-86 | Afterwards the source holds exactly the two features of the new location, and the previous location is gone. The display invariant holds: the source is empty or shows one location. |
| MapView.MapSession.ZoomIn | main.js:122-129 | An empty source leaves the view unchanged. Otherwise the view gets exactly one fit request, for the source's extent, with maximum zoom 18 and duration 500 ms. |
| App.InitialSelectedIndex | main.js:107 | A freshly written selector selects its first option (index 0), by the browser's default for a selector with no `selected` option. It selects no option (-1) exactly when the list is empty. |
| App.OnUpdateButton | main.js:105-109 | With an option selected, exactly one lookup is sent, and it is for the selected pair's own id (read back through the markup and `parseInt`). An OK answer draws that location. A failed lookup leaves the drawing unchanged. With no option selected, nothing is fetched and nothing changes. The display invariant (nothing drawn, or exactly one location) is kept across clicks. |
| App.Start | main.js:51-144 | The events are the list request, the authentication when the list is `null`, and then the initial lookup of the first pair's id. A `null` list stops start-up with no selector and an empty map. An empty list writes the bare selector and fetches nothing more. A successful first lookup draws that location and fits the view to it once, with zoom 18 and 500 ms. A failed one leaves the map empty and unfitted. Nothing happens after a redirect. |

## Left out

- Requests that fail without a response (a network error rejects `fetch`) are not modelled. The script does not turn them into `null`; only responses with an `ok` flag are modelled.
- The request URLs (host, paths, the `id` query string built by `URLSearchParams`) are not modelled. Requests are named by kind and id.
- JSON decoding is not modelled: bodies are given already decoded. A list body is taken to be a sequence of (integer id, label) pairs, and other shapes of JSON are not modelled.
- The browser's parsing of the selector markup is not modelled. Option `i` of the parsed selector is taken to be the markup written for pair `i`. Labels carrying markup of their own (a `<` or `&`) would be parsed differently; the count lemmas only state how many `<option` starts they add.
- The geometry itself is kept symbolic: the polygon approximating the accuracy circle, the projection from EPSG:4326 to the view's projection, and `fromLonLat`. Extents are the feature lists they cover, not bounding boxes.
- The fit animation and the view's resulting centre and zoom are not modelled, only the `fit` calls and their options.
- The map's construction constants (target element, OSM tile layer, initial centre and zoom 2) are not modelled.
- The control elements, their class names and button markup, and the event-listener registration are left out. The handlers themselves are modelled.
- `randomLocation` (main.js:88-93) is not modelled: it depends on `Math.random` and nothing calls it.
- Concurrency is not modelled: clicks while start-up or another handler is still awaiting a response, and the order in which overlapping handlers finish. The model runs each handler to completion.
- The failing handlers are not modelled as thrown exceptions. Where the script throws a `TypeError`, `App.OnUpdateButton` returns `NoSelection` or `LocationUnavailable`, and `App.Start` then skips the zoom as the rejected `await` does.
- The page continuing after `window.location.replace` until navigation happens is modelled only as the rest of the start-up sequence. The navigation itself is an event.
- Decimal.IntToDecimal: ids are mathematical integers. JavaScript numbers lose integer precision above 2^53, switch to exponent notation at 10^21, and may be non-integers, and none of that is modelled.
- Decimal.ParseInt: returns an unbounded integer. `-0` is read as 0, and values above 2^53, which JavaScript would round, are not modelled.
