# Abigail request dispatcher, modelled in Dafny

Abigail (a fork of php-rest-service) turns a PHP controller class into a
REST service. A `Server` node has a trigger URL, a controller, a `Router`
(route pattern to HTTP method to handler) and `Response` settings; nodes
form a tree through `addSubController`. `Server::run` offers the request
to the sub-controllers in registration order, then answers it itself when
the URL lies under its trigger: an OPTIONS request is described from the
routes and the PHPDoc comments of their handlers (`Inspector`, `PhpDoc`),
otherwise the route is looked up, the handler's arguments are bound from
the captured groups, the query string and the body, the access hook runs
and the handler is called (`fireMethod`). Every reply is an envelope
handed to the `Client`, which adds the `status` key and encodes it as
JSON (`Encoder\JSON`) or XML (`Encoder\XML`); the output format is
negotiated from the `Accept` header, a `.json`/`.xml` URL suffix and the
`_format` parameter.

The project models:

- `php.dfy` (module `Php`): the PHP runtime pieces the code relies on:
  ordered arrays as sequences of key/value pairs, truthiness, `trim`,
  `strtolower`, `strpos`, `str_repeat`, and `intval` of a string as PHP 8
  reads it (a decimal with fraction and exponent, truncated and saturated
  at the 64-bit bounds).
- `utils.dfy` (`Utils`): `startsWith`, `normalizeUrl`, `camelCase2Dashes`
  and `argumentName`.
- `patterns.dfy` (`Patterns`): route patterns as whole-URI regular
  expressions. The engine is a parameter (`Matcher`), and a small concrete
  matcher (literal text and `([0-9]+)` groups) serves the examples.
- `model.dfy` (`Model`): handlers, controllers, parameters, throwables,
  the route table, and `NodeView`, a value snapshot of a server node and
  its sub-controllers.
- `router.dfy` (`Routing`): the `Router` class, `findRoute`, the
  `add...Route` family and `collectRoutes`.
- `phpdoc.dfy` (`PhpDoc`): `scan`, `parse` and `fill`.
- `inspector.dfy` (`Inspector`): `describe`, `getMethodMetaData`,
  `scanClassMethods` and `collectArguments`.
- `response.dfy` (`Responses`): the envelopes, `send`, `sendBadRequest`,
  `sendError`, `sendException`, `STATUS_CODES`, and the `Response` class.
- `json.dfy` (`Json`) and `xml.dfy` (`Xml`): the two encoders.
- `client.dfy` (`Clients`) and `internal_client.dfy` (`InternalClients`):
  method resolution, format negotiation and `sendResponse`.
- `server.dfy` (`Servers`): `run` as a function of the node tree
  (`Dispatch`), its steps as methods, and the `Server` class whose `Run`
  is proved to return exactly `Dispatch` of its tree.

What the code reads from the process (`$_SERVER`, `$_GET`, `$_POST`, the
body) is an explicit `Incoming` record or a parameter. The code the
dispatcher calls but does not contain is an `Env` record of functions:
the regular-expression engine, controller methods and closures, the
access hook, the success wrapper and the exception observer. Hooks are
identified by number.

## Model

| member | source | states |
|---|---|---|
| Utils.StartsWithIsPrefix | src/Kernel/Utils.php:19-22 | `startsWith` holds exactly when the needle is a prefix of the haystack |
| Utils.NormalizeUrl | src/Kernel/Utils.php:29-40 | the normalised URL is never empty and always starts with '/' |
| Utils.NormalizeUrlFixpoint | src/Kernel/Utils.php:29-40 | a URL is left unchanged exactly when it is already normal: "/", or a leading '/' and no trailing '/' |
| Utils.NormalizeUrlNormal | src/Kernel/Utils.php:29-40 | the result is normal for every input except one ending in "//" (only one trailing slash is cut) |
| Utils.NormalizeUrlTrailingSlash | src/Kernel/Utils.php:34-36 | one trailing slash does not change the normalised URL |
| Utils.NormalizeUrlNotIdempotent | src/Kernel/Utils.php:29-40 | normalising twice can differ from normalising once ("/a//" gives "/a/", then "/a") |
| Utils.CamelCase2Dashes | src/Kernel/Utils.php:46-49 | the result has no upper-case letter |
| Utils.CamelCase2DashesSpec | src/Kernel/Utils.php:46-49 | with the dashes removed, the result is the lower-cased input; one dash is added per lower-to-upper hump, and no hump is left |
| Utils.ArgumentNameChanges | src/Kernel/Inspector.php:173-179 | `argumentName` changes a name exactly when it starts with a lower-case letter and then an upper-case one, and then drops one character |
| Utils.ArgumentNameStripsPrefix | src/Kernel/Inspector.php:173-179 | a Hungarian-style name such as "sName" binds the argument "name" |
| Patterns.MatchCaptures | src/Kernel/Router.php:159-173 | a match yields one capture per group of the pattern, each made of digits |
| Patterns.LiteralMatch | src/Kernel/Router.php:160 | with the example matcher, a pattern without groups matches exactly the identical URI, with no captures (a PCRE engine would also let `$` match before a final newline and `.` match any character) |
| Patterns.DigitGroupMatches | src/Kernel/Router.php:160 | the digit group captures any run of digits |
| Patterns.StatsRoute | tests/Test/Controller/MyRoutes.php:38-39 | the pattern "stats/([0-9]+)" captures "23" from "stats/23" and does not match "stats" |
| Model.FindMethod | src/Kernel/Inspector.php:115 | a method is found exactly when the controller has one whose name equals the requested name up to ASCII case |
| Routing.SetRouteLookup | src/Kernel/Router.php:188-193 | after `addRoute`, the new handler answers its pattern and method and every other lookup is unchanged |
| Routing.SetRouteOrder | src/Kernel/Router.php:188-193 | a new pattern goes to the end of the table, an existing one keeps its place, and patterns stay distinct |
| Routing.SetRoutesLookup | src/Kernel/Router.php:132-134 | several URL annotations register the same handler under each URL |
| Routing.ScanFindsFirst | src/Kernel/Router.php:159-175 | the regex scan returns the first pattern, in insertion order, that matches and has the method or `_all_` |
| Routing.ScanFails | src/Kernel/Router.php:159-177 | the scan finds nothing exactly when no pattern is eligible |
| Routing.ScanReports | src/Kernel/Router.php:159-173 | the scan reports a registered handler and the captures of its match; it reports `_all_` only when the pattern lacks the method |
| Routing.FindRouteFails | src/Kernel/Router.php:151-178 | `findRoute` returns false exactly when neither literal lookup gives a truthy handler and no pattern is eligible |
| Routing.FindLiteral | src/Kernel/Router.php:153-154 | a truthy handler registered for the exact URI and method is returned with no captures |
| Routing.FindAllFallback | src/Kernel/Router.php:155-156 | otherwise the literal `_all_` handler is returned, reporting the requested method |
| Routing.VerbRoutes | tests/Test/Synthetic/RouteTest.php:20-55 | get and post handlers on one URI and an any-method route on another are each found |
| Routing.OnlyVerb | src/Kernel/Router.php:151-178 | a route registered for one method is not found for another |
| Routing.PatternThenLiteral | src/Kernel/Router.php:151-178 | a pattern route captures its groups, while a literal URI is found directly |
| Routing.StatsRoutes | tests/Test/Synthetic/CollectTest.php:29-36 | "stats/23" reaches the pattern route with the capture "23", and "stats" the literal one |
| Routing.SplitName | src/Kernel/Router.php:113-119 | a method name splits into its lower-case verb ("all" becomes `_all_`) and the dashed rest as the URI |
| Routing.PostLoginName | tests/Test/Controller/MyRoutes.php:31 | "postLogin" is collected as method "post" on URI "login" |
| Routing.GetName | src/Kernel/Router.php:113-119 | "get" is collected as method "get" on the empty URI |
| Routing.AllName | src/Kernel/Router.php:117-119 | a name starting with "all" is collected for any method |
| Routing.TwoUrlAnnotations | src/Kernel/Router.php:127-135 | two `@url` annotations give both URLs as targets |
| Routing.PublicMethods | src/Kernel/Router.php:121-124 | only public methods are collected |
| Routing.CollectStepLookup | src/Kernel/Router.php:108-138 | one collected method writes its handler under its verb at each target URI, unless it is excluded |
| Routing.CollectLookup | src/Kernel/Router.php:108-138 | after collection, each lookup gives the last method that wrote that URI and verb, or the earlier entry |
| Routing.CollectErrorCause | src/Kernel/Router.php:126-135 | collection throws only the `[]`-on-a-string `Error`, and only for a method, not excluded, whose `@url` annotations cannot be read |
| Routing.Router.constructor | src/Kernel/Router.php:21-46 | a new router has no routes, no fallback method, describes routes, and excludes `__construct` |
| Routing.Router.SetDescribeRoutes | src/Kernel/Router.php:81-85 | sets `describeRoutes` and nothing else |
| Routing.Router.Locate | src/Kernel/Router.php:151-178 | the loop of `findRoute` returns exactly `FindRoute` of the table |
| Routing.Router.AddRoute | src/Kernel/Router.php:188-193 | the table becomes the old table with the route set |
| Routing.Router.AddAnyRoute | src/Kernel/Router.php:188-193 | the default method of `addRoute` is `_all_` |
| Routing.Router.AddGetRoute | src/Kernel/Router.php:202-207 | registers under "get" |
| Routing.Router.AddPostRoute | src/Kernel/Router.php:216-221 | registers under "post" |
| Routing.Router.AddPutRoute | src/Kernel/Router.php:230-235 | registers under "put" |
| Routing.Router.AddPatchRoute | src/Kernel/Router.php:244-249 | registers under "patch" |
| Routing.Router.AddHeadRoute | src/Kernel/Router.php:258-263 | registers under "head" |
| Routing.Router.AddOptionsRoute | src/Kernel/Router.php:272-277 | registers under "options" |
| Routing.Router.AddDeleteRoute | src/Kernel/Router.php:286-291 | registers under "delete" |
| Routing.Router.CollectRoutes | src/Kernel/Router.php:101-142 | with exclusion '*' nothing changes; otherwise the table is the fold of the public methods over the old table |
| Routing.Router.CollectAll | src/Kernel/Router.php:108-139 | the loop over the methods computes the fold |
| Routing.Router.CollectOne | src/Kernel/Router.php:109-138 | one turn of the loop is one collection step |
| Routing.Router.AddRoutes | src/Kernel/Router.php:132-134 | the loop over the URL annotations registers each one |
| Routing.ReadTargets | src/Kernel/Router.php:126-137 | the target URIs come from the method's documentation |
| PhpDoc.Scan | src/Kernel/PhpDoc.php:16-53 | the backwards line loop returns exactly the doc comment directly above the declaration |
| PhpDoc.ScanFindsDocComment | src/Kernel/PhpDoc.php:16-53 | the walk over the lines ends with the doc comment |
| PhpDoc.DocCommentBelowOpener | src/Kernel/PhpDoc.php:21-26 | once a comment end is found, the text is the lines from its opener to it |
| PhpDoc.SplitJoin | src/Kernel/PhpDoc.php:131 | splitting the comment into lines loses nothing |
| PhpDoc.Parse | src/Kernel/PhpDoc.php:121-189 | the grouping and rendering loops compute `ParseSpec` |
| PhpDoc.GroupLine | src/Kernel/PhpDoc.php:138-152 | one pass of the tag-grouping body: a tag line flushes the current item (failing where the flush throws) and opens the tag it names; every line is trimmed and appended to the item |
| PhpDoc.FoldLines | src/Kernel/PhpDoc.php:137-153 | the tag-grouping loop stops at the first failing line and otherwise ends with the left fold of its body over all lines |
| PhpDoc.RenderTags | src/Kernel/PhpDoc.php:167-186 | each tag is rendered by its regex, and a tag seen once is unwrapped |
| PhpDoc.ParseNonDocblock | src/Kernel/PhpDoc.php:123-127 | text that is not a `/** ... */` block parses to the empty array |
| PhpDoc.ParseDescriptionFirst | src/Kernel/PhpDoc.php:134-159 | a parsed doc block always has `description` as its first key, with a string value |
| PhpDoc.ParseUntagged | src/Kernel/PhpDoc.php:138-159 | without tags, the whole doc block is the description: its lines trimmed and joined with single spaces |
| PhpDoc.ParseDescriptionBeforeTags | src/Kernel/PhpDoc.php:138-159 | when every tag line names its tag, the description is the text of the lines before the first tag line, trimmed and joined with single spaces, and it comes first |
| PhpDoc.FoldKeepsDescription | src/Kernel/PhpDoc.php:137-153 | from the first tag line on, while every tag line names its tag, the grouping loop keeps the stored description first and unchanged |
| PhpDoc.UnnamedTagOverwritesDescription | src/Kernel/PhpDoc.php:141-150 | a bare `@` line opens no tag, so the item after it is flushed as the description and replaces the text before it |
| PhpDoc.ParamItemOf | src/Kernel/PhpDoc.php:163 | "@param type $name desc" gives the type, name and description |
| PhpDoc.UrlItemOf | src/Kernel/PhpDoc.php:164 | "@url u" gives the url |
| PhpDoc.ReturnItemOf | src/Kernel/PhpDoc.php:165 | "@return type desc" gives the type and description |
| PhpDoc.SqueezeExport | src/Kernel/PhpDoc.php:93 | the default value text is `var_export` with spaces and newlines removed, a compact form of the value; a NUL in a string is spelled `' . "\0" . '` and the smallest 64-bit integer as `-9223372036854775807-1`, as `var_export` writes them |
| PhpDoc.QuoteEscapeNul | src/Kernel/PhpDoc.php:93 | inside a quoted string, `var_export` closes the quote around each NUL and writes it as `"\0"`, escaping the text on either side as usual |
| PhpDoc.DefaultTextNul | src/Kernel/PhpDoc.php:93 | the default text of a string holding a NUL is the quoted, squeezed text before it, then `'."\0".'`, then the squeezed text after it |
| PhpDoc.DefaultTextIntMin | src/Kernel/PhpDoc.php:93 | the default text of PHP_INT_MIN is `-9223372036854775807-1`, not its plain decimal |
| PhpDoc.Fill | src/Kernel/PhpDoc.php:61-113 | the loops of `fill` compute `FillSpec`, whose `default` is the squeezed `var_export` text, NUL and PHP_INT_MIN included |
| PhpDoc.IndexParams | src/Kernel/PhpDoc.php:63-73 | the first loop indexes the parameters by name and synthesises `param` entries when none are documented |
| PhpDoc.BindParams | src/Kernel/PhpDoc.php:79-97 | the second loop binds each documented parameter that exists |
| PhpDoc.FillUndocumented | src/Kernel/PhpDoc.php:64-97 | without `@param`, each declared parameter gets a record under its argument name |
| PhpDoc.FillReturnDefault | src/Kernel/PhpDoc.php:99-101 | without `@return`, the return type is "mixed" |
| Inspector.GetMethodMetaData | src/Kernel/Inspector.php:89-101 | the metadata is the filled parse of the scanned doc comment |
| Inspector.MetaDataUndocumented | src/Kernel/Inspector.php:89-101 | an undocumented method reports its parameters and the return type "mixed" |
| Inspector.ScanClassMethods | src/Kernel/Inspector.php:111-135 | a missing method gives a 400 `MethodNotFoundException`; otherwise the declared parameters, minus the first for `_all_` |
| Inspector.UnderscoreArguments | src/Kernel/Inspector.php:149-155 | the `_` argument collects the query entries whose keys start with '_', except `_suppress_status_code` |
| Inspector.UnderscoreArgsKeys | src/Kernel/Inspector.php:150-154 | every key collected for `_` is such an underscored key |
| Inspector.UnderscoreArgsExact | src/Kernel/Inspector.php:150-154 | with distinct query keys, the entries are kept in order with their values |
| Inspector.CollectOne | src/Kernel/Inspector.php:147-161 | a parameter is missing, or bound to its value |
| Inspector.CollectArguments | src/Kernel/Inspector.php:143-164 | the loop computes `CollectSpec` |
| Inspector.CollectFirstMissing | src/Kernel/Inspector.php:157-159 | the first missing required parameter gives a 400 `MissingRequiredArgumentException` naming it |
| Inspector.CollectAllBound | src/Kernel/Inspector.php:143-164 | when none is missing, the arguments are the bound values in parameter order |
| Inspector.CollectMissingHasCause | src/Kernel/Inspector.php:157-159 | a missing-argument reply always names a parameter that is missing |
| Inspector.BoundPrecedence | src/Kernel/Inspector.php:157-160 | a query value wins over a body value, which wins over the default; a parameter with none of them is missing exactly when it is required |
| Inspector.DescribeHandler | src/Kernel/Inspector.php:60-67 | one method's description is its metadata |
| Inspector.DescribeMethods | src/Kernel/Inspector.php:60-68 | the loop over a route's methods gathers their descriptions under upper-case method keys |
| Inspector.DescribeRoute | src/Kernel/Inspector.php:53-69 | one route's entry |
| Inspector.DescribeRoutes | src/Kernel/Inspector.php:52-71 | given each route's description, the loop gathers the routes the URI selects under their route keys, in order, failing with the first failure (`Gather` over `RouteKeys`, which is `RouteDocs`) |
| Inspector.Describe | src/Kernel/Inspector.php:29-80 | the description is `DescribeTree`, with each sub-controller described recursively |
| Inspector.DescribeChildren | src/Kernel/Inspector.php:73-77 | the loop over the sub-controllers gathers their descriptions |
| Inspector.DescribeAllRoutes | src/Kernel/Inspector.php:52-54 | without a URI, every route is described, in table order |
| Inspector.DescribeMatchingRoutes | src/Kernel/Inspector.php:54 | with a URI, a route is described exactly when its pattern matches the URI |
| Inspector.RouteEntryShape | src/Kernel/Inspector.php:58-69 | a route entry has `uri` = trigger + "/" + pattern, then `methods` with one upper-case key per method |
| Inspector.DefinitionShape | src/Kernel/Inspector.php:31-50 | the keys are `parameters` (unless only routes are asked for) and `controller` |
| Inspector.SubControllersDescribed | src/Kernel/Inspector.php:73-77 | `subController` is present exactly when no URI is given and there are sub-controllers, with one entry per trigger |
| Inspector.SubControllerDescribeFails | src/Kernel/Inspector.php:75 | describing a node with sub-controllers without a URI always throws |
| Inspector.DescribeAgrees | src/Kernel/Inspector.php:29-80 | otherwise the as-written and the corrected descriptions agree |
| Inspector.SubControllerExample | src/Kernel/Inspector.php:73-77 | a root with one sub-controller: the corrected description succeeds, the as-written one throws |
| Responses.SendUnwrapped | src/Kernel/Response.php:165-171 | without a wrapper, `send` emits code 200 with the data under `data` |
| Responses.SendWrapped | src/Kernel/Response.php:165-171 | with a wrapper, the wrapper's result is what is sent |
| Responses.ObserverIgnored | src/Kernel/Response.php:218-222 | the exception observer's result is dropped: when it returns, the envelope is the one sent without it |
| Responses.ExceptionKeys | src/Kernel/Response.php:224-235 | the exception envelope has `error` and `message`, then `file`, `line` and `trace` exactly in debug mode |
| Responses.Response.constructor | src/Kernel/Response.php:17-43 | status codes on, no wrapper, no observer |
| Responses.Response.SetHttpStatusCodes | src/Kernel/Response.php:108-112 | sets that flag only |
| Responses.Response.SetSuccessResponseWrapper | src/Kernel/Response.php:130-134 | sets the wrapper only |
| Responses.Response.SetExceptionHandler | src/Kernel/Response.php:153-157 | sets the observer only |
| Json.JsonFormat | src/Encoder/JSON.php:34-81 | the character loop computes `Formatted`, and fails when `str_repeat` gets a negative count |
| Json.FormatChar | src/Encoder/JSON.php:50-78 | one turn of the loop: the text emitted for a character and the next quote, escape and depth state |
| Json.FormatSucceedsIff | src/Encoder/JSON.php:56-59 | formatting fails exactly when a closing bracket outside strings takes the depth below zero |
| Json.DepthCounts | src/Encoder/JSON.php:56-73 | the depth after any input is the number of opening brackets outside strings minus the number of closing ones |
| Json.BalancedEndsAtZero | src/Encoder/JSON.php:56-73 | input with as many closing as opening brackets outside strings ends at depth 0, and is formatted unless some prefix closes below zero |
| Json.FormattedPrefixNone | src/Encoder/JSON.php:48-79 | once a prefix fails, the whole input fails |
| Json.UnformatFormatted | src/Encoder/JSON.php:48-79 | removing the layout the loop inserts gives back the scanned input |
| Json.FormatRoundTrip | src/Encoder/JSON.php:34-81 | for compact JSON whose brackets never close below depth zero, formatting succeeds and removing its layout gives back the input |
| Xml.HtmlSpecialChars | src/Encoder/XML.php:38-44 | escaped text contains none of `<`, `>`, `"` and `'` |
| Xml.UnescapeEscape | src/Encoder/XML.php:38-44 | escaping loses nothing: unescaping gives back the text |
| Xml.NumericFraction | src/Encoder/XML.php:36 | `is_numeric` accepts "1.5" |
| Xml.NumericTrailingPoint | src/Encoder/XML.php:36 | `is_numeric` accepts "5." |
| Xml.NumericLeadingPoint | src/Encoder/XML.php:36 | `is_numeric` accepts ".5" |
| Xml.NumericLeadingBlank | src/Encoder/XML.php:36 | `is_numeric` accepts " 1" |
| Xml.NumericTrailingBlank | src/Encoder/XML.php:36 | `is_numeric` accepts "1 " |
| Xml.NumericTrailingFormFeed | src/Encoder/XML.php:36 | `is_numeric` accepts "1" followed by a form feed |
| Xml.NumericSigned | src/Encoder/XML.php:36 | `is_numeric` accepts "-5" |
| Xml.NumericExponent | src/Encoder/XML.php:36 | `is_numeric` accepts "1e3" |
| Xml.NotNumericEmpty | src/Encoder/XML.php:36 | `is_numeric` rejects "" and "." |
| Xml.NotNumericExponent | src/Encoder/XML.php:36 | `is_numeric` rejects "1e" |
| Xml.NotNumericLetter | src/Encoder/XML.php:36 | `is_numeric` rejects "a1" |
| Xml.NotNumericHex | src/Encoder/XML.php:36 | `is_numeric` rejects "0x1A" |
| Xml.NotNumericNul | src/Encoder/XML.php:36 | `is_numeric` rejects "1" followed by NUL, which `trim` would strip |
| Xml.NumericPlain | src/Encoder/XML.php:36 | text with no blank at either end and no sign is numeric exactly when it is an unsigned decimal, optionally with an exponent |
| Xml.NotUnsignedAt | src/Encoder/XML.php:36 | text whose leading digits are followed by anything but a point or an exponent mark is not a number |
| Xml.DigitsNumeric | src/Encoder/XML.php:36 | every non-empty run of decimal digits is numeric |
| Xml.ListWrittenAsItems | src/Encoder/XML.php:35-42 | a PHP list (integer keys) is written as its items in order, each under `<parent-item>` |
| Xml.AsWrittenAgrees | src/Encoder/XML.php:31-46 | under strict types, `toXml` fails exactly when some leaf is not a string, and otherwise gives the corrected text |
| Xml.ElementsAgree | src/Encoder/XML.php:35-42 | the same for the elements of an array |
| Xml.ExportAsWritten | src/Encoder/XML.php:17-23 | `export` as written succeeds exactly when every leaf is a string |
| Xml.EnvelopeNotExportable | src/Encoder/XML.php:17-23 | an envelope holding an integer (every envelope has the integer `status`) cannot be exported as written |
| Xml.Export | src/Encoder/XML.php:17-46 | the corrected export, with leaves written as text, agrees with the as-written export wherever that succeeds |
| Xml.ScalarRoundTrip | src/Encoder/XML.php:44 | a 64-bit integer leaf reads back as the same integer; a larger one as `intval` saturates it |
| Clients.CustomMethodVerbatim | src/Client.php:185-189 | a method set with `setMethod` is returned as set |
| Clients.ResolvedIsAccepted | src/Client.php:191-208 | otherwise the method is always one of the seven accepted ones |
| Clients.NormalizeMethodSpec | src/Client.php:202-206 | the method is lower-cased; an unknown one becomes "get" |
| Clients.NormalizeMethodExamples | src/Client.php:202-206 | "DELETE" gives "delete", "Patch" gives "patch", "TRACE" gives "get" |
| Clients.QueryMethodWins | src/Client.php:196-197 | `_method` in the query decides, whatever the headers and form say |
| Clients.OverrideWins | src/Client.php:191-194 | without `_method`, the override header wins over the request method |
| Clients.ResolveFails | src/Client.php:185-209 | the method cannot be resolved exactly when no custom method is set and the chosen source is missing or not a string |
| Clients.Client.GetMethod | src/Client.php:185-209 | returns the resolved method |
| Clients.FirstContainedIsFirst | src/Client.php:77-82 | the Accept loop keeps the current format when the header contains no known format, and otherwise picks the first known format, in declaration order, that it contains |
| Clients.AcceptXmlOnly | src/Client.php:77-82 | a header naming xml but not json picks xml |
| Clients.FirstAccepted | src/Client.php:77-82 | the loop computes `FirstContained` |
| Clients.WildcardAcceptIgnored | src/Client.php:76 | an Accept header containing "*/*" leaves the format unchanged |
| Clients.AcceptPrefersJson | src/Client.php:77-82 | a header naming json picks json, the first known format |
| Clients.SuffixStripped | src/Client.php:86-92 | a known `.json`/`.xml` suffix selects the format and is cut from the URL |
| Clients.SuffixUnknown | src/Client.php:86-92 | an unknown suffix changes nothing |
| Clients.SuffixOnlyCuts | src/Client.php:86-92 | the URL is either kept or loses exactly the dot and the format |
| Clients.SuffixBeforeNewline | src/Client.php:86 | a trailing newline after the suffix still matches `$`, and the cut keeps the dot |
| Clients.ParamFormatWins | src/Client.php:95-99 | a known `_format` parameter decides the format |
| Clients.DefaultJson | src/Client.php:73-102 | with no header, suffix or parameter, the format stays json |
| Clients.NegotiateKnown | src/Client.php:73-102 | the negotiated format is always a known one |
| Clients.NegotiateFormats | src/Client.php:73-102 | the negotiation method computes `Negotiate` |
| Clients.Client.constructor | src/Client.php:58-66 | the URL is PATH_INFO (or ""), and the formats are negotiated from json |
| Clients.Client.SetupFormats | src/Client.php:73-102 | URL and format become the negotiation of the old ones |
| Clients.Client.SetUrl | src/Client.php:120-125 | sets the URL only |
| Clients.Client.SetMethod | src/Client.php:218-223 | sets the custom method only |
| Clients.StatusFirstSpec | src/Client.php:149-151 | `status` becomes the first key with `intval` of the code, unless the message has one, which is replaced in place |
| Clients.StatusFirstExponent | src/Client.php:149-151 | the code "2e2" is stored as the integer 200 |
| Clients.StatusHeader | src/Client.php:138-147 | a header is written exactly when not on the command line |
| Clients.StatusHeaderUsesCode | src/Client.php:136-146 | outside the command line, the header is the code's status line exactly when status codes are on and `_suppress_status_code` is not truthy, and "200 OK" otherwise |
| Clients.StatusLineKnown | src/Client.php:142-143 | a code in `STATUS_CODES` gets its phrase: "404" gives "HTTP/1.0 404 Not Found" |
| Clients.StatusLineExponent | src/Client.php:143-144 | the phrase is looked up by `intval` of the code: "2e2" gives "HTTP/1.0 2e2 OK" |
| Clients.ExponentCode | src/Client.php:143 | `intval("2e2")` is 200 |
| Clients.StatusLineUnknown | src/Client.php:142-143 | a code missing from `STATUS_CODES` gets no phrase: "299" gives "HTTP/1.0 299" |
| Clients.SuppressedStatus | src/Client.php:136-146 | `_suppress_status_code` turns the status line into "200 OK" |
| Clients.Client.SendResponse | src/Client.php:134-161 | the header, the encoded body with `status` first, and the echo exactly outside the command line; `status` and the phrase lookup use `intval` of the code, exponent notation and saturation included |
| Clients.XmlEncoderUndefined | src/Client.php:30-33 | as written inside `namespace Abigail`, the xml entry of `$outputFormats` resolves to `Abigail\Abigail\Encoder\XML`, which is not one of the encoder classes the code defines |
| Clients.EncodersDefined | src/Client.php:30-33 | with both entries fully qualified, json names `Abigail\Encoder\JSON`, xml names `Abigail\Encoder\XML`, and every known format names a defined encoder class |
| InternalClients.InternalSendResponse | src/InternalClient.php:18-25 | the message with `status` set to `intval` of the code as in `sendResponse`, encoded, and no header |
| Php.IntValOfText | src/Client.php:150 | `intval` reads an integer's decimal text as the integer within 64 bits, as the nearest bound beyond, and as 0 past a double's range |
| Php.IntValExponent | src/Client.php:150 | `intval` reads digits with an exponent as the number they denote, truncated toward zero and saturated |
| Php.IntValSmallExponent | src/Client.php:150 | `intval("1e-1")` is 0 |
| Php.IntValFraction | src/Client.php:150 | `intval` drops the fraction of a decimal |
| InternalClients.InternalXmlAlwaysEncodes | src/InternalClient.php:18-25 | with the corrected XML encoder, every envelope encodes |
| Servers.FirstChildWins | src/Server.php:418-422 | the first sub-controller, in registration order, that answers decides the whole node's reply |
| Servers.NoChildAnswers | src/Server.php:418-422 | when no sub-controller answers, the node answers itself |
| Servers.FirstAnswerAnswered | src/Server.php:419-420 | the loop only returns truthy results |
| Servers.RootNeverUnclaimed | src/Server.php:450-461 | the root never returns false |
| Servers.LocalUnclaimed | src/Server.php:424-461 | a node returns false exactly when it is a sub-controller, the URL is under its trigger, the method is known, the request is not described and no handler is found |
| Servers.OutsideTrigger | src/Server.php:424-429 | a URL outside the trigger gives "" and sends nothing |
| Servers.PrefixNotSegment | src/Server.php:427-436 | the trigger is a text prefix, not a path segment: "/api" serves "/apiary" with the route "ry" |
| Servers.UnknownMethod | src/Server.php:440 | an unresolvable method escapes as the `TypeError` of `strtolower` |
| Servers.NoRouteReply | src/Server.php:450-461 | no handler: the root without a fallback sends a 400 `RouteNotFoundException`, a sub-controller returns false |
| Servers.OptionsDescribed | src/Server.php:443-448 | OPTIONS is described when no pattern holds an "options" handler and the URI has no literal `_all_` handler |
| Servers.LiteralAllAnswersOptions | src/Server.php:443-448 | a literal `_all_` handler answers OPTIONS instead of the description |
| Servers.ArgumentLayout | src/Server.php:463-497 | the arguments start with "_all_" (for a pattern's `_all_`) and the captures; the parameters left to collect are the rest of the declaration |
| Servers.MissingMethodReplies | src/Server.php:472-554 | a missing method gives a 400 in `run`, before `fireMethod`, whose own check would give a 500 |
| Servers.GuardedAnswers | src/Server.php:521-534 | the access hook: an `Exception` is reported with a 500 and the handler still runs; anything else it throws escapes |
| Servers.BindAnswers | src/Server.php:463-534 | once a handler is found, the node always answers |
| Servers.FireAnswers | src/Server.php:548-569 | `fireMethod` always answers: a method the controller lacks gives the 500 of `sendError`; a returned value is sent as `data` with code 200 (the wrapper's result when a wrapper is set); an `Exception` or `TypeError` from the handler gives the 500 envelope of `sendException` with its class and message; an `Error` escapes |
| Servers.FireMethod | src/Server.php:548-569 | the method computes `Fire` |
| Servers.GuardAndFire | src/Server.php:521-534 | the method computes `Guarded` |
| Servers.BindAndFire | src/Server.php:463-534 | the method computes `Bind` |
| Servers.ShiftCaptured | src/Server.php:495-497 | the `array_shift` loop drops one parameter per capture |
| Servers.DescribeAndSend | src/Server.php:445-448 | the method computes `Description` |
| Servers.Unrouted | src/Server.php:450-461 | the method computes `NoRoute` |
| Servers.AnswerRoute | src/Server.php:443-534 | the method computes `Answer` |
| Servers.ServeLocal | src/Server.php:424-534 | the node's own part of `run` computes `Local` |
| Servers.InheritRouter | src/Server.php:108-121 | a sub-controller's router is fresh, empty and describes routes |
| Servers.InheritResponse | src/Server.php:109-131 | a sub-controller copies the wrapper, the observer and the status-code setting |
| Servers.Server.Root | src/Server.php:104-137 | a root node: normalised trigger, no routes, no sub-controllers, its own client |
| Servers.Server.NewChild | src/Server.php:104-137 | a sub-controller node inherits the access hook, debug mode and the response settings, and shares the client |
| Servers.Server.Child | src/Server.php:104-131 | the part of the sub-controller's construction that does not touch the client |
| Servers.Server.SetCheckAccess | src/Server.php:183-188 | sets the access hook only |
| Servers.Server.SetDebugMode | src/Server.php:205-210 | sets debug mode only |
| Servers.Server.SetTriggerUrl | src/Server.php:354-359 | sets the trigger, without normalising it |
| Servers.Server.SetControllerFactory | src/Server.php:233-238 | sets the factory only |
| Servers.Server.AddRoute | src/Server.php:313-316 | `addRoute` through `__call`: the node's table becomes `SetRoute` of the old one, and the tree invariant holds |
| Servers.Server.AddAnyRoute | src/Kernel/Router.php:188-193 | through `__call`, registers under the default key `_all_` |
| Servers.Server.AddGetRoute | src/Kernel/Router.php:202-207 | through `__call`, registers under "get" |
| Servers.Server.AddPostRoute | src/Kernel/Router.php:216-221 | through `__call`, registers under "post" |
| Servers.Server.AddPutRoute | src/Kernel/Router.php:230-235 | through `__call`, registers under "put" |
| Servers.Server.AddPatchRoute | src/Kernel/Router.php:244-249 | through `__call`, registers under "patch" |
| Servers.Server.AddHeadRoute | src/Kernel/Router.php:258-263 | through `__call`, registers under "head" |
| Servers.Server.AddOptionsRoute | src/Kernel/Router.php:272-277 | through `__call`, registers under "options" |
| Servers.Server.AddDeleteRoute | src/Kernel/Router.php:286-291 | through `__call`, registers under "delete" |
| Servers.Server.CollectRoutes | src/Kernel/Router.php:101-140 | through `__call`, on the node's controller: '*' changes nothing, otherwise the table is the fold over the public methods; the tree invariant holds |
| Servers.Server.SetDescribeRoutes | src/Kernel/Router.php:81-85 | through `__call`, sets the router's flag and leaves the tree as it was |
| Servers.Server.SetHttpStatusCodes | src/Kernel/Response.php:108-112 | `getResponse()->setHttpStatusCodes`: only the status-code setting of the tree changes |
| Servers.Server.SetSuccessResponseWrapper | src/Kernel/Response.php:130-134 | `getResponse()->setSuccessResponseWrapper`: only the wrapper changes |
| Servers.Server.SetExceptionHandler | src/Kernel/Response.php:153-157 | `getResponse()->setExceptionHandler`: only the observer changes |
| Servers.RunWithRoute | tests/Test/Synthetic/CustomRoutesTest.php:17-21 | a root on "/" with a `post` route "login" added, then `run`: the result is `Dispatch` of a tree whose table holds exactly that route |
| Servers.LoginSubController | tests/Test/Synthetic/CustomRoutesTest.php:101-105 | the sub-controller "sub" under a "/" root: trigger "/sub", exactly the `post` route "login", no sub-controllers |
| Servers.BuildSubControllerTree | tests/Test/Synthetic/CustomRoutesTest.php:101-105 | a "/" root without routes whose only sub-controller is that one |
| Servers.RunWithSubController | tests/Test/Synthetic/CustomRoutesTest.php:100-110 | `run` on that tree is `Dispatch` over the two-node tree, so the route of "/sub" is reachable |
| Servers.Server.AddSubController | src/Server.php:370-384 | the child's trigger is the parent's (none for "/") joined to the normalised sub-trigger; the child is appended to the tree |
| Servers.Server.Attach | src/Server.php:381 | appends one sub-controller and keeps the tree invariant |
| Servers.Server.Run | src/Server.php:415-535 | `run` returns exactly `Dispatch` of the node's tree |
| Servers.Server.RunChildren | src/Server.php:418-422 | the loop returns the first answering sub-controller's result |

## Left out

- Output and the process environment: `header`, `echo`, `php_sapi_name`, `$_SERVER`, `$_GET` and `$_POST` become parameters or the `Incoming` record. The body decoding of `Kernel\Request` is not part of this model: the decoded body is a parameter.
- `json_encode` is called and not modelled: it is a parameter of the JSON encoder.
- The regular-expression engine is a parameter (`Matcher`). Only the small concrete matcher of `Patterns` is defined.
- Controller classes and reflection are modelled by `Controller` values (class name, methods, parameters, doc-comment lines). `setClass`, `createControllerClass`, `create`, the controller factory call and a controller-less server (`$this` as controller) are not modelled. `setControllerFactory` only records the factory.
- `Server::__call` (src/Server.php:313-316) calls the router first, and the `??` only reaches the response when the router returns null. The router's `add...Route`, `collectRoutes` and `setDescribeRoutes` return the server, so they are modelled as `Server` methods that forward to the router. `Router` defines none of the response setters, so `$server->setHttpStatusCodes(...)` and the other two throw an `Error` through `__call`; the model reaches them through `getResponse()`, as `Servers.Server.SetHttpStatusCodes`, `SetSuccessResponseWrapper` and `SetExceptionHandler`, and does not model the throwing route.
- `simulateCall`, `done` and the getters are not modelled; they only read or set what the model already exposes.
- Servers.MethodTypeError: the `TypeError` message is the one for `null`. A non-string method (an array in `$_GET['_method']`) gives the same model error, whose message in PHP would name the array type.
- Route keys are strings; integer-like array keys of PHP (`$_GET` keys, route patterns such as "1") are not converted to integers.
- Inspector.UnderscoreArgs: a query key such as "0" (`?0=a`) is an integer key in PHP; when the handler has a `_` parameter, `substr($k, 0, 1)` (src/Server.php:508, src/Kernel/Inspector.php:151) then throws a `TypeError` under strict types, which escapes `run`. The model keeps every query key a string and collects the underscored ones instead.
- Model.Param: `optional` is taken to mean that a default value exists, which holds for non-variadic parameters only. Variadic parameters are not modelled: for one, `isOptional()` holds without a default, so `getDefaultValue()` (src/Server.php:517) would throw a `ReflectionException`, and `fill` (src/Kernel/PhpDoc.php:89-93) would mark it not required and give no `default`.
- The router's fallback method can be read but cannot be set anywhere in the code, so it stays "" in every reachable state.
- `Server::run` calls `Kernel\Utils::describe` and `Kernel\Utils::argumentName`, which `Utils` does not define. The model uses `Inspector::describe` and `Inspector::argumentName`, which they evidently mean.
- An array given as `_format` makes `isset($this->outputFormats[...])` throw; the model ignores every non-string `_format`.
- Servers.Server.Run: `Run` requires `Valid()`, in which each node's ghost `Tree` mirrors its sub-controllers' trees. A sub-controller must therefore be fully configured before it is attached: the model builds it with `Server.NewChild`, registers its routes, then calls `Attach` (`AddSubController` is those two steps with nothing in between). Registering a route on a sub-controller, or adding a sub-controller to it, after it is attached makes its ancestors' `Valid()` false, so `Run` can no longer be called on them. The source's tests register the sub-controller's routes after `addSubController` returns (tests/Test/Synthetic/CustomRoutesTest.php:85-111); the model builds the same tree in the order NewChild, routes, Attach (`Servers.BuildSubControllerTree`). The aliasing between a child and its parent's view of it is not modelled.
- The status header code of `sendResponse` (the third argument of `header`) is not modelled, only the header text.
- PhpDoc.FoldLines: the loop applies its body as a function value (`GroupStep`) rather than running the statements in place. Those statements are `PhpDoc.GroupLine`, which is proved to compute that same step.
- Routing.ReadTargets: the code calls `Utils::getMethodMetaData` (src/Kernel/Router.php:126), which `Utils` does not define, so PHP would throw an `Error` there; the model reads the metadata with `Inspector::getMethodMetaData`, which it evidently means.
- Clients.Encode: the xml format uses the corrected writer `Xml.Export`, reached through the corrected class name of `Clients.EncodersDefined`. As written, the class name is wrong (see Findings, `Clients.XmlEncoderUndefined`), and `XML::export` also throws for every envelope (see Findings, `Xml.EnvelopeNotExportable`).
- Servers.Description: the description is the corrected `Inspector.DescribeTree`; as written, describing a node with sub-controllers throws (see Findings, `Inspector.SubControllerDescribeFails`).
- Inspector.Bound: body values are strings only (so are those of `Inspector.IsMissing`). With `declare(strict_types=1)`, `Request::getData` returns `?string`, so a non-string JSON or form value throws a `TypeError` (src/Server.php:514, 517) that escapes `run`; that error path is not modelled. A JSON `null` in the body counts as missing.
- Php.IntVal: a number with a point or an exponent is read exactly and then truncated, where PHP first rounds it to a double. The two differ only when that rounding crosses an integer, which takes more than about 15 significant digits.
- InternalClients.InternalSendResponse: the override at src/InternalClient.php:18 drops the `: string` return type of `Client::sendResponse` (src/Client.php:134), which PHP rejects when it loads the class; the model assumes the class loads and gives it the parent's behaviour.
- Floating-point values and objects inside responses are not modelled; `Value` covers null, booleans, integers, strings and arrays.

## Findings

| source | as written | input that shows it | evidently intended | confidence | as-written member | corrected member |
|---|---|---|---|---|---|---|
| src/Encoder/XML.php:44 | under `declare(strict_types=1)`, `htmlspecialchars($pData)` receives non-string leaves, and every envelope carries the integer `status` | any response in the xml format, for example `sendResponse('200', ['data' => 'x'])` | leaves written as text | not executed | Xml.EnvelopeNotExportable | Xml.Export |
| src/Kernel/Inspector.php:75 | `$controller->describe(false, true)` goes through `Server::__call` to the router, which has no `describe`, so PHP throws an `Error` | an OPTIONS request to a root with one sub-controller, describing with no URI | the sub-controller described recursively with `Inspector::describe($controller, null, true)` | not executed | Inspector.SubControllerDescribeFails | Inspector.Describe |
| src/Client.php:32 | inside `namespace Abigail`, `Abigail\Encoder\XML::class` has no leading backslash, so it resolves to `Abigail\Abigail\Encoder\XML`; `getOutputFormatEncoder` (src/Client.php:167-170) then names `Abigail\Abigail\Encoder\XML::export`, a class that does not exist | any response negotiated to xml, for example a URL ending in ".xml" | `\Abigail\Encoder\XML::class`, naming the XML encoder as the json entry names the JSON one | not executed | Clients.XmlEncoderUndefined | Clients.EncodersDefined |
