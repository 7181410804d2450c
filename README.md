# webpie multiserver, old threaded HTTP server, request ids and YAML preprocessing

This project models, in Dafny, the request-routing core of the webpie WSGI
toolkit and proves properties of the model. It covers:

- **The old threaded HTTP server** (`webpie/old/HTTPServer2.py`):
  - `HTTPHeader`, which reads an HTTP header from a socket in chunks. It
    looks for the end of the header, splits out the request or status line,
    collects the fields, and can print them back.
  - `BodyFile`, which reads a request body from the bytes left over after
    the header and then from the socket.
  - `RequestHandle.start_response`, which writes the response head.
  - `Servlet` prefix matching and rewriting, the query-string parser, and
    the mapping of request headers to WSGI environment entries.
  - The `Dispatcher`, which hands each request to the first servlet that
    accepts it or answers 404 or 503.
  - The reader that decides which connections reach the dispatcher.
- **The process-based multiserver** (`multiserver/multiserver.py`):
  - A `Service` mounts one application under a URI prefix. It watches
    files and reloads itself when one of them is touched.
  - A worker process (`MultiServerSubprocess`) expands service templates
    into services. It reacts to `stop` and `reconfigure` messages from the
    master. It periodically checks the configuration file and the watched
    files.
  - The master (`MPMultiServer`) keeps the configured number of workers
    alive, scales them up and down on reconfiguration, and stops them all.
- **The threaded front ends** (`bin/multiserver.py` and
  `webpie/multiserver.py`):
  - One queued application per configured application.
  - One HTTP server per configured port.
  - On reconfiguration the servers are rebuilt: a server is reused when its
    port stays, started when its port is new, and stopped when its port is
    gone.
- **`bin/preprocess_yaml.py`**, which substitutes `%(name)` placeholders in
  a YAML document. A dict's top-level scalars become variables for the
  values nested below them.
- **`webpie/uid.py`**, the request-id generator. It is a counter that wraps
  at one million, giving integer ids or labels made of three letters, a dot
  and at least three digits.

Objects whose fields the source updates become Dafny classes, with methods
specified against pure functions. The header parser is one example:
`HTTPHeader.Consume` is proved equal to the function `ConsumeStep`, and
the lemmas about the parser are stated over `ConsumeStep`. Parsing, path and
query handling, and substitution are functions with lemmas. Python values
read from configuration files are the datatype `Values.Value`. Python dicts
are association lists in insertion order (`Dicts`).

The clock, file modification times, the random letters of a uid label,
bytes arriving on a socket and regex substitution are parameters of the
operations that use them.

## Model

| member | source | states |
|---|---|---|
| Accept.ReplaceOf | multiserver/multiserver.py:102-103 | the configured `replace_prefix` is put in front exactly when it is a non-empty string (Python truthiness) |
| Accept.Rooted | multiserver/multiserver.py:101 | the result starts with `/`; a URI already starting with `/` is kept, any other gets `/` in front |
| Accept.AcceptedUri | multiserver/multiserver.py:99-103 | a URI is accepted iff it starts with the prefix; the accepted URI starts with the replacement followed by `/` |
| Accept.MountRoundTrip | bin/multiserver.py:45-49 | mounting `p` (starting with `/`) under a prefix and accepting it gives back the replacement followed by `p` |
| Accept.AcceptedIsMounted | bin/multiserver.py:45-49 | every accepted URI is the prefix plus some rooted path `p` (or `p` without its `/`), and is rewritten to the replacement plus `p` |
| Accept.DefaultPrefix | multiserver/multiserver.py:99-101 | with the default prefix `/` and no replacement, URIs not starting with `/` are refused, `//x` becomes `/x`, anything else is kept |
| Accept.TaskQueue.constructor | multiserver/multiserver.py:75-78 | a new queue has the given worker count and capacity, no tasks and is not held |
| Accept.TaskQueue.AddTask | multiserver/multiserver.py:107 | the given task is appended to the queue and nothing else changes |
| Accept.TaskQueue.Hold | multiserver/multiserver.py:112-113 | the queue is held and keeps its tasks |
| Accept.AcceptRequest | multiserver/multiserver.py:94-110 | accepted iff the URI starts with the prefix; then the URI and path become the accepted URI, the request is named, and exactly one task is queued; otherwise request and queue are unchanged |
| BinMultiserver.QueuedApplication.constructor | bin/multiserver.py:14-25 | name, prefix (default `/`), replacement, timeout (10), and a fresh empty queue with `max_workers` (5) and `queue_capacity` (10) are taken from the configuration |
| BinMultiserver.QueuedApplication.Accept | bin/multiserver.py:41-55 | answers true iff the URI starts with the prefix; then the URI is rewritten, the application name is recorded and one task queued; otherwise nothing changes |
| BinMultiserver.HTTPServer.constructor | bin/multiserver.py:87 | the server takes its port from the configuration, holds the given applications, and is not started |
| BinMultiserver.HTTPServer.Start | bin/multiserver.py:88 | the server is started; applications and stop count are kept |
| BinMultiserver.HTTPServer.ReconfigureApps | bin/multiserver.py:91 | the server's applications are replaced; started state and stop count are kept |
| BinMultiserver.HTTPServer.Stop | bin/multiserver.py:99 | the stop count grows by one; nothing else changes |
| BinMultiserver.ByPortValid | bin/multiserver.py:96 | `{srv.Port: srv}` has distinct keys, maps each port to a server on that port, and has exactly the ports of the servers |
| BinMultiserver.TableOf | bin/multiserver.py:96 | the built port table is well formed and its keys are exactly the configured ports |
| BinMultiserver.ByPortOfEntries | bin/multiserver.py:72-96 | built from servers made one per configuration entry, the table's keys are exactly the configured ports |
| BinMultiserver.PortsOfServers | bin/multiserver.py:73-93 | the servers built one per entry carry exactly the configured ports |
| BinMultiserver.MultiServer.constructor | bin/multiserver.py:59-66 | the first configuration starts one fresh server per entry, on its port, holding one application per entry of its `apps` in order, and the port table has exactly the configured ports |
| BinMultiserver.MultiServer.Reconfigure | bin/multiserver.py:69-102 | `sys.path` becomes `pythonpath` plus the saved path (or stays); one server per entry, reusing the old server of that port, else a fresh started one; the server of an entry whose port is new, or that is the last entry for its port, holds one application per entry of its `apps`, in order; each old server whose port is gone is stopped once and keeps its applications, the others are not stopped |
| BinMultiserver.MultiServer.Install | bin/multiserver.py:72-100 | as `Reconfigure`, for the list of server entries, including the applications each server ends up with; an old server whose port is gone keeps its applications |
| BinMultiserver.BuildServers | bin/multiserver.py:80-93 | one server per entry, in order: the table's server for a known port, else a fresh started one; the server of an entry whose port is new, or that is the last entry for its port, holds that entry's applications; servers in the table are not started or stopped, and one whose port no entry names keeps its applications |
| BinMultiserver.ServerFor | bin/multiserver.py:81-93 | the server of one entry: the existing one for its port, or a fresh started one when the port is new; either way it now holds fresh applications made from the entry's `apps`, in order, and no other server's applications change, in particular none on another port |
| BinMultiserver.Extend | bin/multiserver.py:81-93 | one pass of the loop appends the entry's server and keeps every fact `BuildServers` states, for one more entry; table servers on other ports keep their applications |
| BinMultiserver.Hand | bin/multiserver.py:81-93 | the server for one entry is appended to the list so far; it serves the entry's port, is the table's server when there is one and fresh otherwise, holds the entry's applications, and is the only server whose applications change |
| BinMultiserver.StopRemoved | bin/multiserver.py:76-100 | every server whose port is not among the new ports is stopped exactly once; the others are not stopped; no server's applications change |
| BinMultiserver.MakeApps | bin/multiserver.py:83 | one fresh application per application configuration, in order |
| BinMultiserver.NewApp | bin/multiserver.py:83 | a fresh application built from the given configuration |
| BodyFiles.Recv | webpie/old/HTTPServer2.py:34-35 | `sock.recv(n)` returns at most `n` bytes that start the stream; it returns nothing only when `n` is 0 or the stream is exhausted |
| BodyFiles.BodyFile.constructor | webpie/old/HTTPServer2.py:19-22 | the body file holds the buffered chunks, the socket and the declared length |
| BodyFiles.BodyFile.GetChunk | webpie/old/HTTPServer2.py:24-36 | `None` iff nothing is buffered and the socket is gone; otherwise at most `n` bytes taken from the front of what is available; an empty chunk comes only from `n == 0`, a closed socket or an empty buffered chunk |
| BodyFiles.BodyFile.Read | webpie/old/HTTPServer2.py:40-59 | the bytes read are a prefix of what was available; they stay within `N` and the remaining length; a short read means the source ran dry; the remaining length drops by exactly what was read; `None` once nothing is left |
| Decimal.ParseInt | webpie/old/HTTPServer2.py:150 | `int(s)` succeeds iff, once stripped, the text is digits grouped by single underscores, with at most one leading `+` or `-`; a negative result has a leading `-` |
| Decimal.ParseLiteral | webpie/old/HTTPServer2.py:150 | the same, on text already stripped |
| Decimal.DigitsGrouped | webpie/old/HTTPServer2.py:150 | plain digits are a grouped literal with the value they have without grouping |
| Decimal.UnderscoreLiterals | webpie/old/HTTPServer2.py:150 | `1_000` reads as 1000 and `-1_0` as -10; `1__0`, `_1` and `1_` are refused |
| Decimal.IntRoundTrip | webpie/old/HTTPServer2.py:399 | `int(str(i)) == i` for every integer |
| Decimal.LiteralRoundTrip | webpie/old/HTTPServer2.py:399 | `str(i)`, read back as an integer literal without stripping, is `i` |
| Decimal.IntToString | bin/preprocess_yaml.py:12 | `str(i)` is non-empty, starts with `-` iff `i` is negative, and is digits after its first character |
| Decimal.Format03 | webpie/uid.py:26 | `%03d`: the decimal digits, left-padded with zeros to at least three |
| Decimal.Format03RoundTrip | webpie/uid.py:26 | the padded digits read back as the number |
| Dicts.Get | bin/multiserver.py:85 | `d.get(k)` is `None` iff `k` is not a key, else a value stored under `k` |
| Dicts.Put | webpie/old/HTTPServer2.py:166 | after `d[k] = v`, `k` maps to `v`, every other key is unchanged, and a new key is appended at the end of the key order |
| Dicts.Update | bin/preprocess_yaml.py:29-30 | after `d.update(e)` the keys are those of `d` and `e` |
| Dicts.UpdateGet | bin/preprocess_yaml.py:29-30 | after `d.update(e)`, a key of `e` maps to its value in `e`, any other key to its value in `d` |
| Dicts.UpdateKeysOrder | bin/preprocess_yaml.py:29-30 | updating with keys already present keeps the key order |
| Values.Lookup | multiserver/multiserver.py:42 | `config.get(k, default)` is the stored value when `k` is a key, else the default |
| Values.Truthy | multiserver/multiserver.py:102 | a value is false iff it is `None`, `False`, `0`, the empty string, the empty list or the empty dict |
| Values.Repr | bin/preprocess_yaml.py:12 | `repr()` is never empty |
| Values.Render | bin/preprocess_yaml.py:12 | `str()` of a string is the string, of an integer a text `int()` reads back as it, of anything else a non-empty text |
| Text.Strip | webpie/old/HTTPServer2.py:140 | `strip()` removes exactly the leading and trailing whitespace; the result is empty iff the string is all whitespace |
| Text.StripIdempotent | webpie/old/HTTPServer2.py:140 | stripping twice is stripping once |
| Text.StripUnpadded | webpie/old/HTTPServer2.py:140 | a string with no whitespace at either end is kept |
| Text.StripEmptyIff | webpie/old/HTTPServer2.py:140 | the stripped string is empty iff the original is all whitespace |
| Text.Split | webpie/old/HTTPServer2.py:323 | `split(c)` gives at least one part, none containing `c` |
| Text.JoinSplit | webpie/old/HTTPServer2.py:323 | joining the parts with `c` gives back the string |
| Text.JoinWithLast | webpie/old/HTTPServer2.py:236 | the last part of a join of two or more parts follows the last separator |
| Text.JoinEnds | webpie/old/HTTPServer2.py:236 | a join of two or more parts followed by a tail starts with the first part and a separator, and ends with a separator, the last part and the tail |
| Text.SplitJoin | webpie/old/HTTPServer2.py:323 | splitting `c`-free parts joined by `c` gives back the parts |
| Text.SplitOnce | webpie/old/HTTPServer2.py:160 | `split(c, 1)`: one part iff `c` is absent, else the text before the first `c` and the rest |
| Text.SplitMax2 | webpie/old/HTTPServer2.py:144 | `split(" ", 2)`: at most three parts that join back to the string, the first ones free of the separator |
| Text.FirstWord | webpie/old/HTTPServer2.py:230 | `split()[0]`: none iff the string is blank, else the first run of non-whitespace after leading whitespace |
| Text.Upper | webpie/old/HTTPServer2.py:115 | `upper()` maps every character and keeps the length |
| Text.UpperIdempotent | webpie/old/HTTPServer2.py:115 | upper-casing twice is upper-casing once |
| Text.Lower | webpie/old/HTTPServer2.py:149 | `lower()` maps every character and keeps the length |
| Text.IndexOf | webpie/old/HTTPServer2.py:158 | the first position of `c`, none iff `c` is absent |
| HttpHeader.Decode | webpie/old/HTTPServer2.py:139 | `to_str` maps each byte to the character with the same code |
| HttpHeader.MatchEnd | webpie/old/HTTPServer2.py:120 | a match of the end-of-header pattern at `i` is 2 to 4 bytes long |
| HttpHeader.MatchEndIsTerminator | webpie/old/HTTPServer2.py:120 | the pattern matches at `i` iff a header terminator (`\n\n`, `\r\n\r\n`, `\n\r\n` or `\r\n\n`) starts there |
| HttpHeader.FindEOH | webpie/old/HTTPServer2.py:126 | the search finds the first position where the pattern matches, or reports that it matches nowhere |
| HttpHeader.FindEOHNoneIff | webpie/old/HTTPServer2.py:126-127 | the search fails iff the buffer holds no terminator |
| HttpHeader.EarliestTerminator | webpie/old/HTTPServer2.py:126-134 | the span found is a terminator and no terminator starts earlier |
| HttpHeader.SearchStable | webpie/old/HTTPServer2.py:125-126 | once the buffer holds a terminator, more input does not move the match |
| HttpHeader.FieldLine | webpie/old/HTTPServer2.py:163-167 | a line yields a field iff it contains `:` |
| HttpHeader.ParseFields | webpie/old/HTTPServer2.py:162-168 | the collected fields have distinct names |
| HttpHeader.FieldFromLastLine | webpie/old/HTTPServer2.py:162-168 | a field name gets the value of the last line that sets it |
| HttpHeader.FieldAbsent | webpie/old/HTTPServer2.py:162-168 | a name no line sets is not a field |
| HttpHeader.WithURI | webpie/old/HTTPServer2.py:172-175 | `setURI` sets the URI and a path without `?`; the path is the URI up to the first `?`; nothing else changes |
| HttpHeader.ParseHead | webpie/old/HTTPServer2.py:141-168 | the headline is the first line; a clean result reports a received header and hands back the bytes after it |
| HttpHeader.StatusLine | webpie/old/HTTPServer2.py:149-152 | a status line, when it does not raise, gives a received, error-free header and the leftover bytes |
| HttpHeader.RequestLine | webpie/old/HTTPServer2.py:153-160 | a request line always gives a received, error-free header and the leftover bytes |
| HttpHeader.WithQuery | webpie/old/HTTPServer2.py:158-160 | a URI with `?` sets the query to the text after the first `?`; nothing else changes |
| HttpHeader.RequestTarget | webpie/old/HTTPServer2.py:153-160 | method and protocol upper-cased, URI and original URI the target, a path without `?` that with `?` and the query gives back the target; the query is kept when there is no `?`; no other field changes |
| HttpHeader.Parse | webpie/old/HTTPServer2.py:123-170 | with a terminator in the buffer the header is complete, `Raw` is the bytes before the terminator, and the rest is what follows it |
| HttpHeader.ConsumeStep | webpie/old/HTTPServer2.py:123-170 | while no head is found all input is buffered, nothing else but the error changes, and the error is reported iff the buffer is over `MAXREAD`; a found head (or a raise) marks the header complete; a clean parse empties the buffer; a malformed head or a raise leaves the old buffer |
| HttpHeader.ConsumeIncomplete | webpie/old/HTTPServer2.py:125-133 | without a terminator all input is buffered, nothing is received, and the error is set iff the buffer is over `MAXREAD` |
| HttpHeader.ConsumeComplete | webpie/old/HTTPServer2.py:134-170 | with a terminator the header is complete; `Raw` is a terminator-free prefix; on success the buffer is emptied and input = raw + terminator + rest |
| HttpHeader.ConsumeMalformed | webpie/old/HTTPServer2.py:144-148 | a headline of other than three words sets the error and returns (received, error, no rest); method, status, URI and fields are untouched |
| HttpHeader.ConsumeRequestLine | webpie/old/HTTPServer2.py:153-168 | a request line sets the upper-cased method and protocol, the URI and original URI, path and query, and fields from the remaining lines; the status code is untouched |
| HttpHeader.ConsumeStatusLine | webpie/old/HTTPServer2.py:149-152 | a status line raises iff the code is not an integer; otherwise it sets code, message and upper-cased protocol, with the method untouched |
| HttpHeader.ConsumeTwice | webpie/old/HTTPServer2.py:123-133 | consuming `a` (no terminator, within `MAXREAD`) then `b` gives the same outcome and fields as consuming `a + b` |
| HttpHeader.RecvLoopStep | webpie/old/HTTPServer2.py:91-100 | one chunk of the receive loop: a raise ends it, a received or erroneous header ends it with that result, otherwise the loop goes on |
| HttpHeader.RecvLoop | webpie/old/HTTPServer2.py:84-103 | `recv` returns no body unless a head was received, and a received head (or a raise) leaves the header complete |
| HttpHeader.RecvAsOneConsume | webpie/old/HTTPServer2.py:84-103 | receiving a header in chunks gives the same result as consuming all the chunks at once, as long as no terminator shows up before the last chunk and that earlier input stays within `MAXREAD` |
| HttpHeader.IsFinal | webpie/old/HTTPServer2.py:117-118 | a header is final iff it is a request, or a response whose status code is outside 100..199 (`//` is floor division) |
| HttpHeader.IsValid | webpie/old/HTTPServer2.py:114-115 | valid iff the error was cleared by `recv` and the upper-cased protocol starts with `HTTP/`; the truth test on the protocol adds nothing, and a valid protocol has at least five characters |
| HttpHeader.FreshHeadKind | webpie/old/HTTPServer2.py:108-112 | after one `consume` a fresh header is a client (`is_client`) or a server (`is_server`), never both, exactly when a head was received without error |
| HttpHeader.RequestHeadlineRoundTrip | webpie/old/HTTPServer2.py:194-198 | for an upper-case request line, `headline(original=True)` prints the headline back |
| HttpHeader.StatusHeadlineRoundTrip | webpie/old/HTTPServer2.py:194-198 | for an upper-case status line with a canonical code, `headline()` prints the headline back |
| HttpHeader.HeadlineWords | webpie/old/HTTPServer2.py:194-198 | a headline whose three fields hold no space splits on spaces back into those fields |
| HttpHeader.StatusHeadlineWords | webpie/old/HTTPServer2.py:194-198 | a status headline splits into version, code as `str()` writes it, and message when version and message hold no space |
| HttpHeader.RequestValidity | webpie/old/HTTPServer2.py:114-115 | a parsed request is a client header and final, and is valid iff its protocol starts with `HTTP/` |
| HttpHeader.MultiLines | webpie/old/HTTPServer2.py:187-189 | a list value prints one `name: value` line per value, in order |
| HttpHeader.EntryLines | webpie/old/HTTPServer2.py:186-191 | a single value prints one `name: value` line, a list one line per value |
| HttpHeader.HeaderTextLines | webpie/old/HTTPServer2.py:184-191 | every line printed starts with the name of one of the headers and `: ` |
| HttpHeader.PlainHeaderLines | webpie/old/HTTPServer2.py:184-192 | single-valued fields print as one `name: value` line each, in order |
| HttpHeader.ParsedFieldsPlain | webpie/old/HTTPServer2.py:162-168 | parsed fields are all single-valued |
| HttpHeader.CollectFields | webpie/old/HTTPServer2.py:162-168 | the field loop computes the parsed fields |
| HttpHeader.TextLinesOf | webpie/old/HTTPServer2.py:185-191 | the printing loop computes the header lines |
| HttpHeader.MultiLinesOf | webpie/old/HTTPServer2.py:187-189 | the inner printing loop computes the lines of a list value |
| HttpHeader.HTTPHeader.constructor | webpie/old/HTTPServer2.py:63-77 | a new header is in the initial state: nothing parsed, empty buffer |
| HttpHeader.HTTPHeader.SetURI | webpie/old/HTTPServer2.py:172-175 | the fields become `WithURI` of the old fields; the buffer is kept |
| HttpHeader.HTTPHeader.ReplaceURI | webpie/old/HTTPServer2.py:105-106 | the URI and path both become the given URI; nothing else changes |
| HttpHeader.HTTPHeader.Consume | webpie/old/HTTPServer2.py:123-170 | the new state and outcome are `ConsumeStep` of the old state and the input |
| HttpHeader.HTTPHeader.ParseHeadLines | webpie/old/HTTPServer2.py:141-168 | the fields and outcome are `ParseHead` of the old fields |
| HttpHeader.HTTPHeader.ParseStatusLine | webpie/old/HTTPServer2.py:149-152 | the fields and outcome are `StatusLine` of the old fields |
| HttpHeader.HTTPHeader.ParseRequestLine | webpie/old/HTTPServer2.py:153-168 | the fields and outcome are `RequestLine` of the old fields |
| HttpHeader.HTTPHeader.SetRequestTarget | webpie/old/HTTPServer2.py:154-160 | method, protocol, URI, path and query are set from the three words |
| HttpHeader.HTTPHeader.SetQuery | webpie/old/HTTPServer2.py:158-160 | the fields become `WithQuery` of the old fields |
| HttpHeader.HTTPHeader.Recv | webpie/old/HTTPServer2.py:84-103 | the error is cleared and the chunks are consumed as `RecvLoop` says |
| HttpHeader.HTTPHeader.RecvOne | webpie/old/HTTPServer2.py:93-98 | one pass of the receive loop agrees with `RecvLoop` |
| HttpHeader.HTTPHeader.RemoveKeepAlive | webpie/old/HTTPServer2.py:177-179 | a `Connection` field is set to `close` if present; other fields and the key set are unchanged |
| HttpHeader.HTTPHeader.ForceConnectionClose | webpie/old/HTTPServer2.py:181-182 | `Connection` maps to `close` (appended if new); other fields are unchanged |
| HttpHeader.HTTPHeader.HeadersAsText | webpie/old/HTTPServer2.py:184-192 | the text is the field lines joined by CRLF, with a final CRLF |
| HttpServer.Encode | webpie/old/HTTPServer2.py:417 | encoding Latin-1 text to bytes is undone by decoding |
| HttpServer.KeptLines | webpie/old/HTTPServer2.py:232-234 | exactly the headers not named `Connection` are printed, no more lines than headers |
| HttpServer.ResponseHead | webpie/old/HTTPServer2.py:229-236 | the head starts with `HTTP/1.1 ` and the status on its own line, and ends with a `Connection: close` line and an empty line |
| HttpServer.OnlyConnectionPrintsClose | webpie/old/HTTPServer2.py:233-235 | no kept header prints as `Connection: close` |
| HttpServer.ConnectionCloseOnce | webpie/old/HTTPServer2.py:229-236 | the response head has `Connection: close` only as its last line |
| HttpServer.RequestHandle.constructor | webpie/old/HTTPServer2.py:219-227 | a new handle has no header, body, status or output, has sent nothing, and its socket is open |
| HttpServer.RequestHandle.SendAll | webpie/old/HTTPServer2.py:417 | the data is appended to what was sent; nothing else changes |
| HttpServer.RequestHandle.Close | webpie/old/HTTPServer2.py:238-241 | the socket is closed; nothing else changes |
| HttpServer.RequestHandle.StartResponse | webpie/old/HTTPServer2.py:229-236 | succeeds iff the status has a first word; then the status is that word and the output is the response head; otherwise nothing changes |
| HttpServer.Latin1Concat | webpie/old/HTTPServer2.py:416-417 | joining Latin-1 text gives Latin-1 text |
| HttpServer.JoinLatin1 | webpie/old/HTTPServer2.py:236 | a join of Latin-1 lines with a Latin-1 separator is Latin-1 |
| HttpServer.HeadIsLatin1 | webpie/old/HTTPServer2.py:229-236 | the head built from a Latin-1 status and Latin-1 headers is Latin-1, so it can be sent byte for byte |
| HttpServer.RequestHandle.SendHead | webpie/old/HTTPServer2.py:416-417 | a non-empty output buffer is sent as one more message holding its bytes; an empty one sends nothing; nothing else changes |
| HttpServer.RequestHandle.Respond | webpie/old/HTTPServer2.py:416-417 | when the status has a word, exactly one message is added to what was sent and it decodes to the response head; otherwise nothing is sent and nothing changes |
| Servlets.Drop | webpie/old/HTTPServer2.py:313 | `s[n:]` is what follows the first `n` characters, empty past the end |
| Servlets.MatchUri | webpie/old/HTTPServer2.py:301-307 | `None` iff a regex is configured (its match is not returned); otherwise true iff there is no prefix or the URI starts with it |
| Servlets.RewriteUri | webpie/old/HTTPServer2.py:309-314 | with regex and rewrite, the regex substitution; else with prefix and replacement, a URI that starts with the replacement and keeps the tail after the prefix (just the replacement when the URI is no longer than the prefix); else the URI unchanged |
| Servlets.RewriteAccepted | webpie/old/HTTPServer2.py:309-314 | on an accepted URI the prefix is swapped for the replacement and the tail kept; without a replacement the URI is kept |
| Servlets.RewriteInverse | webpie/old/HTTPServer2.py:309-314 | rewriting `p` to `q` and then `q` to `p` gives back the URI |
| Servlets.QueryEntry | webpie/old/HTTPServer2.py:324-329 | a query word is skipped iff it is empty or starts with `=`; else it splits into a non-empty key without `=` and an optional value that rebuild the word |
| Servlets.QueryEntryRoundTrip | webpie/old/HTTPServer2.py:325-329 | a key and optional value printed as `k[=v]` parse back to themselves |
| Servlets.QueryFold | webpie/old/HTTPServer2.py:321-338 | the parsed query has no more keys than pieces, and every key has a value given to it by some piece |
| Servlets.QueryFoldGet | webpie/old/HTTPServer2.py:321-338 | the parsed query has distinct keys; a key maps to its single value, or to the list of its values when it repeats |
| Servlets.NoEmptyKey | webpie/old/HTTPServer2.py:327 | the empty key never appears in a parsed query |
| Servlets.ParseQuery | webpie/old/HTTPServer2.py:321-338 | the loop computes the fold over `query.split("&")`: distinct keys, each mapped as `QueryFoldGet` says |
| Servlets.QueryFoldMeaning | webpie/old/HTTPServer2.py:321-338 | every key of the fold maps to the value collected from its words |
| Servlets.CgiName | webpie/old/HTTPServer2.py:401 | `HTTP_` followed by the name upper-cased with `-` turned into `_` |
| Servlets.HostParts | webpie/old/HTTPServer2.py:393-397 | a host with `:` splits into name and port at the first `:`; without `:` the port is empty |
| Servlets.HeaderEnvValue | webpie/old/HTTPServer2.py:390-401 | one header has a value for a key iff it names that key and can be mapped: `CONTENT_TYPE` and `HTTP_<NAME>` get the header value, `HTTP_HOST` the whole host, `SERVER_NAME` and `SERVER_PORT` its two parts, `CONTENT_LENGTH` the parsed integer |
| Servlets.EnvAdd | webpie/old/HTTPServer2.py:390-401 | one header makes the mapping raise iff it is a list-valued host, or a `Content-Length` that is list-valued or not an integer; otherwise every key the header names then holds that header's value for it, and every other key keeps its old value |
| Servlets.PutHost | webpie/old/HTTPServer2.py:393-397 | the three writes of a `Host` header leave each of `HTTP_HOST`, `SERVER_NAME` and `SERVER_PORT` with its own value and every other key alone |
| Servlets.LastNaming | webpie/old/HTTPServer2.py:389-401 | the position of the last header that sets a key: it sets the key and no later header does; -1 when no header sets it |
| Servlets.EnvFoldGet | webpie/old/HTTPServer2.py:389-401 | after the loop every key holds the value from the last header that sets it (the last write wins), or its old value when no header sets it |
| Servlets.EnvFold | webpie/old/HTTPServer2.py:388-401 | the keys already in the environment stay; the body length changes only when some header is a `Content-Length`; the values are given by `EnvFoldGet` |
| Servlets.EnvFoldFails | webpie/old/HTTPServer2.py:389-401 | the mapping fails iff some header fails |
| Servlets.EnvFoldLength | webpie/old/HTTPServer2.py:398-399 | the body length is the last `Content-Length`, or unchanged when there is none |
| Servlets.EnvAddLength | webpie/old/HTTPServer2.py:398-399 | a `Content-Length` header sets the length to its integer value; other headers keep it |
| Servlets.EnvFoldKeys | webpie/old/HTTPServer2.py:389-401 | the environment's keys are the old keys and those the headers name |
| Servlets.EnvAddKeys | webpie/old/HTTPServer2.py:390-401 | one header adds exactly the keys it names |
| Servlets.HeadersToEnviron | webpie/old/HTTPServer2.py:389-401 | the header loop computes the fold over the headers, so it raises as `EnvFoldFails` says and leaves keys, values and body length as `EnvFoldKeys`, `EnvFoldGet` and `EnvFoldLength` say |
| Servlets.Servlet.constructor | webpie/old/HTTPServer2.py:267-278 | a servlet with a route that is not both prefix and regex, an empty queue and its queue bound |
| Servlets.Servlet.Add | webpie/old/HTTPServer2.py:470-472 | a request is queued iff the queue is below its bound; otherwise the queue is unchanged |
| Servlets.Servlet.RewriteRequest | webpie/old/HTTPServer2.py:361 | the header's URI is set to the rewritten URI |
| Servlets.FirstMatch | webpie/old/HTTPServer2.py:468-477 | the first route that accepts the URI, or none when no route does |
| Servlets.RegexRouteNeverChosen | webpie/old/HTTPServer2.py:301-303 | a servlet configured with a regex is never chosen, because its `match_uri` returns `None` |
| Servlets.FirstMatchAt | webpie/old/HTTPServer2.py:468-474 | the first accepting route is the one chosen |
| Servlets.Dispatcher.constructor | webpie/old/HTTPServer2.py:461-463 | the dispatcher holds the given servlets |
| Servlets.Dispatcher.Add | webpie/old/HTTPServer2.py:465-477 | no match: 404 sent and socket closed; a match with room: queued there; a full match: 503 sent and socket closed; no other servlet's queue changes |
| Servlets.ConsumeKeepsClientURI | webpie/old/HTTPServer2.py:153-157 | a request header keeps having a URI through further input |
| Servlets.RecvKeepsClientURI | webpie/old/HTTPServer2.py:84-103 | the same holds through the receive loop |
| Servlets.ReaderProcess | webpie/old/HTTPServer2.py:486-496 | failed iff `recv` raised; forwarded iff a request header was received; then the handle gets the fresh header and the body; dropped connections are closed |
| Servlets.Admit | webpie/old/HTTPServer2.py:489-496 | the handle gets the header and the body iff something was received, valid, a request and without error; otherwise a received-but-refused header closes the connection, and a raise leaves the handle as it was |
| Servlets.OneChunkAdmission | webpie/old/HTTPServer2.py:486-496 | a single chunk is forwarded iff it holds a terminator before a three-word request line whose protocol starts with `HTTP/` |
| Servlets.FreshConsume | webpie/old/HTTPServer2.py:123-170 | a fresh header admits a chunk under the same condition |
| Servlets.OneDelivery | webpie/old/HTTPServer2.py:91-100 | receiving one chunk is one `consume` step |
| MpService.TouchReload | multiserver/multiserver.py:36-38 | without `touch_reload` nothing is watched |
| MpService.TouchReloadPaths | multiserver/multiserver.py:36-38 | a string is one watched path; a list gives its strings in order |
| MpService.DistinctPathsKeys | multiserver/multiserver.py:40 | the watched paths as dict keys: the same paths, each once |
| MpService.DistinctPaths | multiserver/multiserver.py:40 | the dict keys are no more than the paths listed |
| MpService.StampsOf | multiserver/multiserver.py:40 | no more entries than paths; each entry is a watched path with its modification time |
| MpService.StampsGet | multiserver/multiserver.py:40 | each watched path maps to its modification time when configured, others are absent |
| MpService.FindTouched | multiserver/multiserver.py:123-130 | the scan reports a touch iff some watched file now has a modification time other than the recorded one |
| MpService.TouchedIff | multiserver/multiserver.py:122-130 | a touch is reported iff a watched path exists now with a time other than at configuration |
| MpService.FreshStampsQuiet | multiserver/multiserver.py:122-125 | right after configuration no file counts as touched |
| MpService.SettingsDefaults | multiserver/multiserver.py:42-76 | missing settings default to nothing watched, prefix `/`, no replacement, timeout 10, 5 workers and capacity 10 |
| MpService.ConfigStaysPut | multiserver/multiserver.py:32-34 | `configure()` without a configuration keeps the current one |
| MpService.Service.constructor | multiserver/multiserver.py:23-29 | the service is named from its configuration and configured once |
| MpService.Service.Configure | multiserver/multiserver.py:31-89 | the service is configured from its configuration and file times, with a fresh queue |
| MpService.Service.Load | multiserver/multiserver.py:72-78 | the load time is recorded and a fresh empty queue is made |
| MpService.Service.Accept | multiserver/multiserver.py:94-110 | accepted iff the URI starts with the prefix; the request then gets the service name and one task is queued |
| MpService.Service.Close | multiserver/multiserver.py:112-113 | the queue is held with its tasks kept |
| MpService.Service.ReloadIfNeeded | multiserver/multiserver.py:122-131 | reloads iff a watched file was touched; otherwise nothing changes |
| MpSupervisor.SentOnce | multiserver/multiserver.py:265-272 | sending a message adds exactly one copy of it to a worker's outbox and no other message |
| MpSupervisor.Living | multiserver/multiserver.py:340-347 | the workers kept are no more than before, and every one kept is from the list and alive |
| MpSupervisor.LivingExactly | multiserver/multiserver.py:340-347 | the workers kept are exactly the living ones, without repeats |
| MpSupervisor.AllLiving | multiserver/multiserver.py:340-347 | when all workers live, all are kept, in order |
| MpSupervisor.RequestAll | multiserver/multiserver.py:308-309 | every worker is sent `reconfigure` once |
| MpSupervisor.StopAll | multiserver/multiserver.py:361-362 | every worker is sent `stop` once |
| MpSupervisor.Spawn | multiserver/multiserver.py:310-314 | `count` fresh, distinct, started workers on the port |
| MpSupervisor.StopNewest | multiserver/multiserver.py:316-319 | the oldest `n` workers are kept; each removed worker is sent `stop`; a negative `n` underflows |
| MpSupervisor.MPMultiServer.constructor | multiserver/multiserver.py:276-288 | listening on the configured port with the configured number of started workers |
| MpSupervisor.MPMultiServer.Reconfigure | multiserver/multiserver.py:290-325 | a changed port ends the master; otherwise the workers are rescaled to the configured count (kept workers get `reconfigure`, extra ones `stop`, new ones start), and a negative count underflows |
| MpSupervisor.Survivors | multiserver/multiserver.py:339-346 | the loop keeps exactly the living workers, in order, and counts the rest as died |
| MpSupervisor.MPMultiServer.CheckChildren | multiserver/multiserver.py:336-355 | dead workers are dropped and, unless stopping, replaced by the same number of fresh started ones |
| MpSupervisor.MPMultiServer.Killme | multiserver/multiserver.py:357-362 | the master stops and every worker is sent `stop` once |
| MpSupervisor.Rescale | multiserver/multiserver.py:306-324 | the workers after rescaling number exactly the configured count, all distinct and on the port |
| MpSupervisor.Grow | multiserver/multiserver.py:307-314 | existing workers get `reconfigure` and keep their place; `count` fresh ones follow |
| MpSupervisor.Shrink | multiserver/multiserver.py:315-321 | the oldest `n` are kept and get `reconfigure`; the rest get `stop` |
| MpWorker.TemplateOf | multiserver/multiserver.py:189-190 | a template is used only when the service names one that exists and is not `None` |
| MpWorker.NamedConfigs | multiserver/multiserver.py:196-199 | one configuration per name |
| MpWorker.FlatMapAppend | multiserver/multiserver.py:188-202 | expanding a concatenation is concatenating the expansions |
| MpWorker.FlatMap | multiserver/multiserver.py:187-202 | a configuration is in the joined list iff it is in the list of some entry |
| MpWorker.ExpandEntry | multiserver/multiserver.py:189-202 | an entry without `template` yields itself; one with `template` yields one configuration per name, each named by its name |
| MpWorker.ExpandServices | multiserver/multiserver.py:187-202 | a configuration is expanded iff some entry yields it |
| MpWorker.TemplateEntry | multiserver/multiserver.py:189-200 | a templated service yields one configuration per name, each named accordingly and otherwise as merged |
| MpWorker.DefaultNames | multiserver/multiserver.py:196 | without `names` a templated service yields one configuration, named by its `name` |
| MpWorker.ExpandServicesAppend | multiserver/multiserver.py:188-202 | service expansion distributes over concatenation |
| MpWorker.PlainServicesUnchanged | multiserver/multiserver.py:201-202 | services without a template are kept as they are |
| MpWorker.NewService | multiserver/multiserver.py:200 | a fresh valid service on the given configuration |
| MpWorker.BuildNamed | multiserver/multiserver.py:197-200 | one fresh distinct service per configuration, in order |
| MpWorker.BuildEntry | multiserver/multiserver.py:189-202 | the services of one entry have exactly its expanded configurations |
| MpWorker.BuildServices | multiserver/multiserver.py:184-202 | the services built have exactly the expanded configurations, in order |
| MpWorker.Concat | multiserver/multiserver.py:187-202 | appending service lists keeps their configurations in order and keeps them distinct |
| MpWorker.MultiServerSubprocess.constructor | multiserver/multiserver.py:164-177 | a new worker on its port, on the master's side, not stopped and not running |
| MpWorker.MultiServerSubprocess.Launch | multiserver/multiserver.py:312 | the worker is running; its outbox is kept |
| MpWorker.MultiServerSubprocess.Terminate | multiserver/multiserver.py:342 | the worker is no longer running; its outbox is kept |
| MpWorker.MultiServerSubprocess.Reconfigure | multiserver/multiserver.py:179-211 | the services are rebuilt from the expanded configuration and served by a new server; the time is recorded |
| MpWorker.MultiServerSubprocess.Start | multiserver/multiserver.py:216-224 | the worker is configured and leaves the master's side |
| MpWorker.MultiServerSubprocess.HandleMessage | multiserver/multiserver.py:242-248 | `stop` stops the worker, `reconfigure` rebuilds its services, anything else changes nothing |
| MpWorker.MultiServerSubprocess.CheckConfig | multiserver/multiserver.py:250-256 | a newer configuration file reconfigures; otherwise each service reloads when needed |
| MpWorker.MultiServerSubprocess.Pass | multiserver/multiserver.py:242-257 | a `stop` message stops the worker; the check runs iff the worker is not stopped and the check is due; a `reconfigure` message or a newer configuration file found by the check rebuilds the services from the configuration and records its time, otherwise services, configuration and time are kept; `last_check_config` becomes the clock reading at the end of the pass, whether or not the check ran |
| MpWorker.MultiServerSubprocess.StopWorker | multiserver/multiserver.py:265-269 | from the master's side `stop` is sent; inside the worker it stops itself |
| MpWorker.MultiServerSubprocess.RequestReconfigure | multiserver/multiserver.py:271-272 | `reconfigure` is sent to the worker |
| MpWorker.ReloadAll | multiserver/multiserver.py:254-256 | each service reloads iff one of its watched files was touched |
| MpWorker.Checks | multiserver/multiserver.py:250-257 | one answer per pass of the loop as written |
| MpWorker.BusyWorkerNeverChecks | multiserver/multiserver.py:250-257 | passes that each come within 5 s of the previous one (the first within 5 s of the last check) never check the configuration, however long the run lasts |
| MpWorker.BusyWorkerStarves | multiserver/multiserver.py:250-257 | passes at 3, 6 and 9 seconds never check, though 9 s is past the 5 s interval |
| MpWorker.NextCheck | multiserver/multiserver.py:257 | as written, a pass at or before the recorded time never finds the check due |
| MpWorker.NextCheckIntended | multiserver/multiserver.py:250-257 | with the intended bookkeeping the recorded time moves only when the check ran, and then a pass at that time is not due |
| MpWorker.ChecksIntended | multiserver/multiserver.py:250-257 | one answer per pass with the intended bookkeeping |
| MpWorker.IntendedChecksEventually | multiserver/multiserver.py:250-257 | with the intended bookkeeping a pass that is due does check |
| PreprocessYaml.WordRun | bin/preprocess_yaml.py:3 | the length of the leading run of word characters |
| PreprocessYaml.Placeholder | bin/preprocess_yaml.py:3 | a match of `%\((\w+)\)` at the start gives a non-empty word name |
| PreprocessYaml.PlaceholderOf | bin/preprocess_yaml.py:3 | `%(name)` followed by anything matches with that name |
| PreprocessYaml.WordRunOf | bin/preprocess_yaml.py:3 | a run of word characters stops at the first non-word character |
| PreprocessYaml.Step | bin/preprocess_yaml.py:8-13 | each scan step advances, and replaces only at a placeholder |
| PreprocessYaml.Substituted | bin/preprocess_yaml.py:5-15 | with no variables, or in a text without `%`, the text is unchanged |
| PreprocessYaml.SubstituteStr | bin/preprocess_yaml.py:5-15 | the loop computes the substituted text |
| PreprocessYaml.UnknownNamesKept | bin/preprocess_yaml.py:10 | a text whose placeholders name no variable is unchanged |
| PreprocessYaml.NoPlaceholderUnchanged | bin/preprocess_yaml.py:5-15 | a text without placeholders is unchanged |
| PreprocessYaml.KnownReplaced | bin/preprocess_yaml.py:10-13 | a placeholder of a known name becomes `str()` of its value |
| PreprocessYaml.UnknownKept | bin/preprocess_yaml.py:10 | a placeholder of an unknown name is kept verbatim |
| PreprocessYaml.PlainTextKept | bin/preprocess_yaml.py:5-15 | text without `%` is copied through |
| PreprocessYaml.SubstScalar | bin/preprocess_yaml.py:26 | a string stays a string and is substituted; an integer is kept |
| PreprocessYaml.Scalars | bin/preprocess_yaml.py:26 | the substituted scalars use only keys of the dict |
| PreprocessYaml.ScalarsAsWritten | bin/preprocess_yaml.py:26 | the comprehension as written raises iff the dict has a top-level integer, and otherwise agrees with `Scalars` |
| PreprocessYaml.IntEntryRaises | bin/preprocess_yaml.py:26 | `{"port": 8080}` raises as written, and is kept with the correction |
| PreprocessYaml.ScalarsGet | bin/preprocess_yaml.py:26 | the substituted scalars are exactly the dict's scalar entries, substituted |
| PreprocessYaml.VarsGet | bin/preprocess_yaml.py:23-29 | nested values see the dict's substituted scalar of a name if any, else the outer variable |
| PreprocessYaml.SubstituteIn | bin/preprocess_yaml.py:34-41 | a string stays a string, a list keeps its length, a dict its keys, anything else is unchanged |
| PreprocessYaml.SubstituteList | bin/preprocess_yaml.py:17-18 | the list keeps its length |
| PreprocessYaml.SubstituteListAppend | bin/preprocess_yaml.py:17-18 | substituting a concatenation is concatenating the substitutions |
| PreprocessYaml.SubstituteListAt | bin/preprocess_yaml.py:17-18 | each item is substituted on its own, and non-container scalars are kept |
| PreprocessYaml.SubstituteDict | bin/preprocess_yaml.py:20-32 | the substituted dict has exactly the original keys |
| PreprocessYaml.SubstituteDictGet | bin/preprocess_yaml.py:20-32 | each key holds its original value substituted with the outer variables overlaid by the dict's scalars |
| PreprocessYaml.IntEntryKept | bin/preprocess_yaml.py:26-30 | a top-level integer survives substitution and is a variable for the nested values |
| PreprocessYaml.Preprocess | bin/preprocess_yaml.py:45-46 | anything but a string, list or dict comes back unchanged |
| Uid.Advance | webpie/uid.py:20 | the counter goes up by one and wraps to 0 at one million |
| Uid.AfterWraps | webpie/uid.py:20 | after `k` calls the counter is the start plus `k`, modulo one million |
| Uid.CounterDistinct | webpie/uid.py:20 | fewer than a million calls apart, the counter differs |
| Uid.IdsDistinct | webpie/uid.py:20-21 | with a non-zero multiplier, ids fewer than a million calls apart differ |
| Uid.FirstIdIsTwo | webpie/uid.py:33 | the default generator hands out 2 first |
| Uid.LabelShape | webpie/uid.py:22-28 | a label is the optional tag and a dot, three letters, a dot, and at least three digits reading back as the id modulo one million |
| Uid.Label | webpie/uid.py:22-28 | a label is as long as the tag and its dot (when there is a tag), the letters, a dot and the padded digits together, so at least the letters and four more characters |
| Uid.UIDGen.constructor | webpie/uid.py:7-13 | the generator holds its start, multiplier, offset and tag |
| Uid.UIDGen.Get | webpie/uid.py:18-29 | the counter advances; the id is the integer or the label of the new counter value |
| Uid.Generator.constructor | webpie/uid.py:33 | the module-level generator starts at 1 with multiplier 1, offset 0 and no tag |
| Uid.Generator.GetUid | webpie/uid.py:35-39 | a given id is returned with the counter untouched; otherwise the current generator hands out the next id |
| Uid.Generator.Init | webpie/uid.py:41-43 | a new generator with the given settings replaces the current one |
| WebpieMultiserver.EnvCopyEntries | webpie/multiserver.py:25-26 | the application's environment holds exactly the configured entries, and nothing when none are configured |
| WebpieMultiserver.QueuedApplication.constructor | webpie/multiserver.py:17-32 | name, mandatory prefix, module, replacement, environment copy, timeout (10), and a fresh queue with `max_workers` (5) and `queue_capacity` (10) |
| WebpieMultiserver.QueuedApplication.Accept | webpie/multiserver.py:38-50 | accepted iff the URI starts with the prefix; then the URI is rewritten and one task queued, without naming the request |
| WebpieMultiserver.HTTPServer.constructor | webpie/multiserver.py:67 | a server on the given port with the given applications and configuration |
| WebpieMultiserver.MakeServer | webpie/multiserver.py:65-67 | a fresh server on the entry's port, holding the entry as its configuration and one application per entry of its `apps`, in order |
| WebpieMultiserver.MakeApps | webpie/multiserver.py:66 | one fresh application per application configuration, in order |
| WebpieMultiserver.NewApp | webpie/multiserver.py:66 | a fresh application built from the given configuration |
| WebpieMultiserver.MultiServer.constructor | webpie/multiserver.py:54-67 | the configured `paths` are appended to `sys.path`; one fresh server per entry of `servers`, in order, on the entry's port, with one application per entry of its `apps` |

## Left out

- Sockets, TLS and x509: bytes arriving on a socket are a sequence of chunks given to the operation; `sendall` appends to a record of sent data.
- `HttpHeader.HTTPHeader.Recv`: a `sock.recv` that raises (a timeout, for instance) is not modelled. The source then stores `"Error in recv(): "` and the exception text in `Error` and leaves the loop (webpie/old/HTTPServer2.py:92-96). In the model the chunk sequence simply ends, which is the end-of-stream exit, and `Error` stays as `consume` left it.
- Threads, processes, pipes and signals. The master's `run` loop and the worker's socket accept loop are left out. So are `SignalHandler`, `os.fork`/`multiprocessing`, and the master-alive probe (`os.kill`). Messages to a worker are an outbox sequence.
- The clock, `time.sleep` and `os.path.getmtime`: times and file modification times are parameters.
- Logging (`Logged`, `Logger`, `MPLogger`), `setproctitle` and debug output.
- Loading applications: `exec` of application files, `importlib`, `create_application`, the `create`/`args` call and `reload` of modules. The WSGI application itself is not modelled.
- `webpie/multiserver.py`'s `MultiServer.reload` and `run` only call into servers that are not part of this model.
- The `pythreader` `TaskQueue` and `Processor` internals: a queue is its list of tasks, its limits and its held flag.
- `Servlet.process`: the WSGI call, the response body and the timeout handling are not modelled. Only the URI rewrite, the header-to-environment mapping and the `sendall` of the response head (`RequestHandle.SendHead`, and `RequestHandle.Respond` for an application that calls `start_response` once) are.
- `HttpServer.RequestHandle.Respond`: when `start_response` raises inside the application, the source's error path is not modelled, and nothing is sent. In the source, `start_response("500 Error", ...)` fills `OutBuffer`, but the next line overwrites it with the traceback text (webpie/old/HTTPServer2.py:411-413), so lines 416-417 send only the traceback, with no status line.
- `HttpServer.RequestHandle.SendHead`: `to_bytes` is taken as Latin-1 encoding, so the head must be Latin-1 text. webpie/py3.py is not part of this model.
- `Listener`, the `HTTPServer2` composition and `HTTPSServer` are left out.
- Regex engines: `re.sub` with a servlet's `rewrite` is a parameter. The end-of-header pattern and the `%(name)` placeholder pattern are written out by hand.
- `\w` in the placeholder pattern is taken as ASCII letters, digits and `_`. `upper`/`lower` map ASCII letters only, and `to_str` decodes Latin-1.
- `yaml_expand` and YAML parsing: documents are `Value` trees.
- `main()` functions and command-line handling.
- The random letters of a uid label are a parameter. The `tag` parameter of `uid()` is not used by the source and is not modelled.
- `MpSupervisor.MPMultiServer.constructor`: requires a process count of at least 0. With a negative count the first `reconfigure` pops from an empty list and raises `IndexError` (multiserver/multiserver.py:316-318), so no supervisor is built. A constructor cannot return an outcome, so that case is not modelled; `Reconfigure` models it as `PopFromEmpty`. The constructor also has no logger parameter: with the default `logger=None`, which `main()` passes when the configuration has no enabled `logger` section (multiserver/multiserver.py:387-395), `self.MPLogger.start()` is called on `None` and raises `AttributeError` (lines 286-287) before `reconfigure()`, so no port is bound and no worker starts. The model does not capture that crash; it describes the constructor as it runs when a logger is given.
- `MpSupervisor.MPMultiServer.Reconfigure`: `sys.exit` on a changed port is the outcome `PortChanged`. A negative process count, where the source's `pop()` from an empty list raises, is the outcome `PopFromEmpty`.
- `MpService.Service.ReloadIfNeeded`: the source returns `None` after reloading; the model returns `true` there.
- Scaling down pops the newest workers first (multiserver/multiserver.py:317). The model follows the code.
- `bin/preprocess_yaml.py` does not parse as written: line 30 lacks a closing parenthesis and line 34 a colon. The model follows the evident reading.
- `ReconfigOk`, `ServerConfigOk`, `AppConfigOk`, `WorkerConfigOk`, `SupervisorConfigOk`, `ServiceConfigOk`: these preconditions ask for every key the modelled code reads with `[]` and every type it relies on. `configure` also reads `config["file"]` (multiserver/multiserver.py:52) while loading the application, which is left out above, so `ServiceConfigOk` does not ask for `file`, and the `KeyError` a missing `file` raises is not modelled. The `KeyError` or `TypeError` the source raises otherwise is not modelled. In particular a raise in the middle of the loop at bin/multiserver.py:80-93 leaves the servers it has already started running, while `Servers` and `ServersByPort` keep their old values.
- `WebpieMultiserver.MultiConfigOk`: `paths` must be a list. The source would also extend `sys.path` by the characters of a string.
- `BodyFiles.BodyFile`: the server passes a single `bytes` value as the buffer (webpie/old/HTTPServer2.py:403 and :495), but `get_chunk` indexes the buffer as a list of chunks (line 26). A real `bytes` buffer would make `get_chunk` fail with a `TypeError` on `len(chunk)` (line 27), since indexing `bytes` gives an `int`. The model takes a list of chunks, as `get_chunk` expects, and does not model that failure.
- `Values.Value` has no floating-point case: YAML floats are not modelled.
- `Values.Repr`: quotes and backslashes inside strings are not escaped the way Python's `repr` escapes them, and strings are always quoted with `'`.
- `Decimal.ParseInt`: only ASCII digits are accepted. Python's `int()` also takes other Unicode decimal digits, which Latin-1 text does not contain.
- `Servlets.RegexRouteNeverChosen` models `match_uri` as written (webpie/old/HTTPServer2.py:303 computes the regex match without returning it). The model does not correct it, because the regex engine is not part of the model.

## Findings

| source | as written | input that shows it | evidently intended | confidence | as-written member | corrected member |
|---|---|---|---|---|---|---|
| multiserver/multiserver.py:257 | `last_check_config` is reset on every pass of the worker loop, whether or not the check ran | passes at 3, 6 and 9 seconds: every pass is under 5 s after the previous one, so the configuration is never checked | reset the time only when the check runs, so a check happens once 5 s have passed | not executed | MpWorker.BusyWorkerNeverChecks | MpWorker.IntendedChecksEventually |
| bin/preprocess_yaml.py:26 | the comprehension keeps `str` and `int` values but hands every one to `substitute_str`, where `finditer` raises `TypeError` on an integer | `{"port": 8080}` | keep integers as they are and substitute only strings | not executed | PreprocessYaml.IntEntryRaises | PreprocessYaml.IntEntryKept |
