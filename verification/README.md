# The HTTP/1.x parser and the output path of http2-asio

This project models two parts of http2-asio and proves properties of them.

The first part is the incremental HTTP/1.x parser (`http_parser.cpp`): the resumable machine
`http_parser_execute` with its fast paths and callbacks, body framing and chunked decoding, the method
matcher, the header recognisers, and the URL splitter `http_parser_parse_url`. The second part is the
output path of an HTTP/2 connection: `http2_session::on_write` and the asynchronous handlers of
`connection`.

## How the files fit together

* `Chars`, `Types`, `Events`, `Views`: bytes, enumerations, callbacks, and the parser as a value. A view
  holds every field of the parser except `nread`, the application's answers, and the callbacks so far,
  where consecutive data callbacks of one kind are one run of bytes.
* `StartLine`, `Headers`, `Body`, `Machine`: the parser as a one-byte step, and its runs. This is the
  specification the rest refers to.
* `Invariant`, `Runs`, `Budget`: what every byte keeps, laws of runs, and the count of header bytes;
  `Tallies` says by the callbacks which bytes are counted.
* `Callbacks`: what callbacks answer, and what it means that a call honours them.
* `Steps`, `Calls`, `Executor`: `http_parser_execute` as it is written, a class whose methods change its
  fields, proved to refine the one-byte step. `Sessions` draws the consequences for sequences of calls
  (any cut, any pauses), `Allowance` and `Announced` those for the header budget, and `Clients` has an
  application that makes such calls.
* `Monitor`, `Grammar`, `Delivery`: an automaton that reads callbacks only, and the proof that every run
  of the parser is accepted by it.
* `Alphabets`, `Numerals`: the character classes and digits, by characters written out.
* `Lengths`, `Names`, `Values`, `Folding`, `Methods`, `Chunks`: what the recognisers and accumulators accept,
  stated without reference to their states. `Refusals`: what each state refuses, and what the parser forgives.
* `Requests`, `Responses`, `Messages`, `Either`: printing and parsing back heads and whole messages; a
  parser that finds out what it reads. `Exits`: where HTTP ends when the connection is upgraded.
* `Independence`: pipelined messages do not influence each other.
* `Urls`, `UrlParser`, `Tiling`, `Parts`, `Syntax`, `Splits`: the URL splitter, its tiling of the URL, its
  round trip, and the syntax of what it accepts.
* `Output`, `Connections`: the output path as a machine of events, and as classes.

## How the source is read

* The parser is the strict one (`HTTP_PARSER_STRICT` is 1), with `HTTP_MAX_HEADER_SIZE` 81920. A byte is a
  Dafny `char`; only the codes 0 to 255 occur in the source.
* `parser->state` and the local `p_state` are one field. `header_state` is kept in a local in the loop over
  a header value, as in the source, and written back where the source writes it back.
* A callback answers 0, pauses the parser, or fails; what the k-th callback of a parser answers is any
  function of k. The answers of 1 from `on_headers_complete` are a set of message ordinals fixed in advance.
  Callbacks do not change the parser in any other way.
* `nread` depends on how the input is cut: when a call ends inside a name or a value that it has not just
  begun, one more is counted. So it is no part of a view, and the contract of `Execute` gives it exactly.
  `Execute` requires the buffer to be shorter than 2^32 - 81920, so that the 32-bit counter cannot wrap.
* A call that finds a parse error, or overflows the header budget, does not deliver the bytes that are
  still marked. The contract of `Execute` names these marks, and says that the callbacks made are those of
  the one-byte parser without them.
* `http_parser_parse_url` is given at most 65535 bytes, so that its 16-bit offsets cannot be truncated, and
  the byte behind the buffer, which `strtoul` may look at, is no digit.
* In the output path, an answer of `nghttp2_session_mem_send` is an error or a chunk; every chunk fits the
  buffer of 65536 bytes. A held-over chunk is never empty, so the empty string stands for none.

Where the code does something else than its comments or names suggest, the model follows the code:

* At the second byte of a method name, a byte that starts no other method is not compared with the name
  for twelve of the methods ("GXT" is accepted as GET). `Methods.MethodComplete` and `MethodSound` give
  exactly the accepted names.
* `HTTP_MAX_HEADER_SIZE` is said to bound the whole head (http_parser.cpp:143-153). When `on_header_value`
  stops a call at the carriage return after a value, the bytes of the value are never counted, so a session
  with such a pause may announce a head of any length. `Announced.NoLongHead` proves the exact bound, which
  is larger by the bytes forgotten in this way, `LongHeadAnnounced` shows that it is attained, and
  `ValueForgotten` says how many bytes are missing.
* `unhex` lists 128 entries, so the bytes 128 to 255 are the digit 0 in a chunk size.
* A list element of a Connection header that only begins a keyword swallows the comma after it, so that the
  next element is not looked at; after an empty element, or one that starts with a byte that is no token
  character once folded, the rest of the list is ignored. Folding is `c | 0x20`, so NUL is skipped like a
  space and TAB is not.
* When a header value is folded, the keyword found in the line before is forgotten: "Transfer-Encoding: chunked"
  and a line of one space sets no flag, and a folded Content-Length is refused (`Folding`).
* In `s_start_res` a line break announces a message as well, so a response may be announced more than once;
  for requests the grammar is exact.
* A delimiter whose part is empty sets no field, so a CONNECT URL may be "@host:1?##", although it is said to
  have a host and a port only; `Splits.AcceptedExactly` gives exactly the accepted URLs.
* "HTTP/1.1" in `http_should_keep_alive` means that both version numbers are positive: HTTP/2.0 counts as
  HTTP/1.0.
* The end of the input may be announced again, and completes a body that ends with the connection each time.

## Model

| member | source | states |
|---|---|---|
| Executor.HttpParser.Execute | sources/libraries/http2_asio/utils/http_parser.cpp:628-2108 | One call of the parser, with all its fast paths, marks, re-execution and early returns, refines the one-byte step. A call that takes all its bytes ends in the same state and with the same callbacks as the bytes one by one. An error is the error of the one-byte parser at the returned offset. A call that returns because of an upgrade returns the offset after the very byte that ends HTTP. A call stopped by a callback has seen the bytes before the returned offset, or the next one too and will treat it alike. At a header overflow the parser, with its callbacks and the marked bytes, is the one-byte parser before the byte that was too much; the returned offset is that of the first byte that exceeds the budget, or the end of the name or value this byte is in, because these are counted all at once. nread is exactly the number of header bytes, and one more when a name or value goes on at the end of the buffer, less what a stop after a value forgets. Whatever ends the call, no head longer than the budget has been read to its end. An empty buffer is the end of the input. The callbacks the call makes, joined, are what it adds to the trace; each is answered 0 but the last one of a call that a callback stops, and the error is the one that answer stands for; so if all answer 0, the call ends in the state of the bytes one by one, or exceeds the header budget |
| Executor.HttpParser.Bytes | sources/libraries/http2_asio/utils/http_parser.cpp:695-2107 | The loop over the bytes of a buffer, with the check of the header budget before each header byte, keeps what the one-byte parser has seen and counted and what the callbacks have answered; at its end the one marked run is handed over |
| Executor.HttpParser.Notify | sources/libraries/http2_asio/utils/http_parser.cpp:80-101 | A callback that answers 0 lets the parser go on; one that pauses it or answers something else stops it at once, with the error of that callback |
| Callbacks.ErrorNamed | sources/libraries/http2_asio/utils/http_parser.cpp:80-133 | The error of a callback that fails bears the name of that callback |
| Callbacks.AnsweredOn | sources/libraries/http2_asio/utils/http_parser.cpp:80-133 | Callbacks that were honoured one after the other are honoured together |
| Calls.Undisturbed | sources/libraries/http2_asio/utils/http_parser.cpp:628-2108 | A call whose callbacks all answer 0 ends where the bytes one by one end, with the same error or upgrade, or exceeds the header budget |
| Executor.HttpParser.constructor | sources/libraries/http2_asio/utils/http_parser.cpp:2161-2170 | A new parser is the all-zero view with its type and start state, and satisfies the invariant |
| Executor.HttpParser.Pause | sources/libraries/http2_asio/utils/http_parser.cpp:2462-2474 | Pausing and unpausing touch the error only, and only if it is none or paused |
| Executor.HttpParser.EndOfInput | sources/libraries/http2_asio/utils/http_parser.cpp:647-667 | The end of the input completes a body that ends with the connection, changes nothing between messages, and is an error anywhere else, with the returned values |
| Executor.HttpParser.Passes | sources/libraries/http2_asio/utils/http_parser.cpp:698-2075 | The re-executed passes over one byte terminate, by bytes left and then re-execute rank, and come to what the one-byte step comes to |
| Executor.HttpParser.NameBytes | sources/libraries/http2_asio/utils/http_parser.cpp:1340-1467 | The inner loop over a header name, which counts its bytes at once and steps back at the end of the buffer, ends where the bytes one by one end, with the count of each |
| Executor.HttpParser.ValueLoop | sources/libraries/http2_asio/utils/http_parser.cpp:1546-1719 | The inner loop over a header value, with the local recogniser state and the jump to the next end of line, ends where the bytes one by one end; if the jump gave up its search, it is followed to a point by which more than the budget has been read |
| Executor.HttpParser.EndValue | sources/libraries/http2_asio/utils/http_parser.cpp:1548-1561 | A carriage return ends a value and is consumed; a line feed is counted but taken again; a callback that stops there leaves a parser that goes on from the returned offset, and at a carriage return nread then lacks exactly the bytes the loop has taken |
| Executor.HttpParser.IdentityBytes | sources/libraries/http2_asio/utils/http_parser.cpp:1899-1934 | The jump over a counted body leaves the state of the bytes one by one; its last byte is seen again to complete the message, also when on_body stops the call |
| Executor.HttpParser.ChunkBytes | sources/libraries/http2_asio/utils/http_parser.cpp:2032-2053 | The jump over chunk data leaves the state of the bytes one by one |
| Executor.HttpParser.HeadersAlmostDoneByte | sources/libraries/http2_asio/utils/http_parser.cpp:1803-1851 | on_headers_complete is called once, sees upgrade already set, and is not called again when it stopped the call |
| Executor.HttpParser.MethodByte | sources/libraries/http2_asio/utils/http_parser.cpp:990-1093 | The matcher in place: same step as the specification of a method byte, and the index advances also when it turns to another method |
| Executor.HttpParser.TurnMethod | sources/libraries/http2_asio/utils/http_parser.cpp:1003-1088 | The branches that turn to another method, in place: the same method, or the same error, as the table of the specification |
| Executor.HttpParser.FirstValueByte | sources/libraries/http2_asio/utils/http_parser.cpp:1484-1539 | The switch at the first byte of a value in place: the same recogniser, flags and length as the specification |
| Executor.HttpParser.MatchName | sources/libraries/http2_asio/utils/http_parser.cpp:1351-1449 | The recogniser of header names in place |
| Executor.HttpParser.MatchValue | sources/libraries/http2_asio/utils/http_parser.cpp:1565-1717 | The recogniser of header values in place, with its flags |
| Executor.HttpParser.Flush | sources/libraries/http2_asio/utils/http_parser.cpp:2088-2100 | At most one mark is set at the end of a buffer, and its bytes are handed over |
| Steps.OneMark | sources/libraries/http2_asio/utils/http_parser.cpp:2088-2092 | The assertion before the last callbacks of a call: at most one mark is set |
| Calls.Conclude | sources/libraries/http2_asio/utils/http_parser.cpp:695-2076 | What one pass adds to what the call has done so far: followed from the start of the call, its runs and its counts compose |
| Calls.StopResumes | sources/libraries/http2_asio/utils/http_parser.cpp:80-133 | A call stopped by a callback can be continued from the returned offset to where the rest of its buffer would have taken it |
| Calls.SizeStartResets | sources/libraries/http2_asio/utils/http_parser.cpp:1953-1953 | Whenever a chunk size starts, nread has just been reset, so that it is 1 at its first digit |
| Sessions.SessionFeeds | sources/libraries/http2_asio/utils/http_parser.cpp:670-693 | Split invariance and pause transparency: whatever calls a session is made of, and wherever callbacks paused it, what is left of the input takes the parser where the whole input takes a parser that was never stopped |
| Sessions.SessionsAgree | sources/libraries/http2_asio/utils/http_parser.cpp:2078-2100 | Two ways to cut and pause the same input end in the same state with the same callbacks |
| Sessions.SessionEndsAt | sources/libraries/http2_asio/utils/http_parser.cpp:1866-1947 | And it ends at the very byte: the one-byte parser takes all the bytes before the returned offset, and none after it |
| Exits.ExitOffset | sources/libraries/http2_asio/utils/http_parser.cpp:1866-1947 | However the input is cut and paused, a session on a message that ends HTTP and any bytes after it can only end right after the message: no byte of the other protocol is taken |
| Exits.ExitAtOnce | sources/libraries/http2_asio/utils/http_parser.cpp:1866-1947 | One call on such a message and any bytes after it, that ends without an error, returns the length of the message |
| Exits.UpgradeExit | sources/libraries/http2_asio/utils/http_parser.cpp:1862-1868 | A printed request head that upgrades and announces no body is such a message |
| Exits.UpgradeReturns | sources/libraries/http2_asio/utils/http_parser.cpp:1866-1867 | So one call on such a head and any bytes after it, that ends without an error, returns the length of the head |
| Exits.SwitchExit | sources/libraries/http2_asio/utils/http_parser.cpp:1862-1868 | So is a printed response head that switches protocols |
| Exits.CountedExit | sources/libraries/http2_asio/utils/http_parser.cpp:1942-1948 | So is a printed request that upgrades, with its counted body |
| Exits.ChunkedExit | sources/libraries/http2_asio/utils/http_parser.cpp:1942-1948 | or with its chunked body and trailers |
| Sessions.SessionEnds | sources/libraries/http2_asio/utils/http_parser.cpp:2102-2107 | A session that ends in a parse error or an upgrade ends where the one-byte parser ends, with the same error |
| Clients.Drive | sources/libraries/http2_asio/utils/http_parser.cpp:2462-2474 | An application that hands in pieces of any lengths and goes on after every pause: its calls are a session, so all that is said of sessions holds of it. Only a callback that refuses keeps a call from taking its piece, so if all answer 0 the pieces are taken one after the other, and an end that is no overflow is that of the uncut input. If all its input is taken, the parser ends where the uncut input takes it. The callbacks made are in order |
| Runs.FeedConcat | sources/libraries/http2_asio/utils/http_parser.cpp:695-702 | Feeding two pieces is feeding them joined |
| Events.EmitTwice | sources/libraries/http2_asio/utils/http_parser.cpp:105-133 | Two data callbacks of one kind in a row add up to one |
| Invariant.StepKeepsInv | sources/libraries/http2_asio/utils/http_parser.cpp:700-2075 | The global invariant: recogniser states legal for the parser state, indices inside their keywords, F_CHUNKED in every chunk state, content_length neither 0 nor the absent marker in body states, versions and status at most 999, the current run of data last in the callbacks; every byte that is no error keeps it |
| Calls.AssertionsMet | sources/libraries/http2_asio/utils/http_parser.cpp:1446-1447 | None of the assertions inside the switch (1446, 1593, 1904, 1953-1954, 1971, 2006, 2017, 2037-2039, 2056-2057, 2064) fails in a pass of a call that began between two bytes: nread is 1 at the first digit of a chunk size, and the rest follows from the invariant |
| Invariant.RetargetFits | sources/libraries/http2_asio/utils/http_parser.cpp:1041-1083 | A method the matcher turns to is longer than what has been read, so the index never passes the end of its name |
| Runs.RunKeepsInv | sources/libraries/http2_asio/utils/http_parser.cpp:695-2076 | The invariant holds after every run without an error |
| Grammar.RunTracks | sources/libraries/http2_asio/utils/http_parser.cpp:628-2108 | The event grammar: the callbacks of every prefix of every run are accepted by an independent monitor, which knows the order of callbacks, the framing of the message, how many body bytes are to come and whether another message may follow |
| Grammar.StepTracks | sources/libraries/http2_asio/utils/http_parser.cpp:700-2075 | One byte never makes a callback out of order, and keeps parser and monitor in agreement on body bytes to come and on keep-alive |
| Grammar.HeadersDoneTracks | sources/libraries/http2_asio/utils/http_parser.cpp:1853-1897 | Body framing is that of section 4.4 of RFC 2616: hand-over, skipped body, chunked before Content-Length, Content-Length, to the end of the connection, none |
| Grammar.CompleteTracks | sources/libraries/http2_asio/utils/http_parser.cpp:2136-2151 | The keep-alive decision when the message ends is the one its head gave, unless there were trailers |
| Grammar.NewTracks | sources/libraries/http2_asio/utils/http_parser.cpp:2161-2170 | A new parser satisfies invariant and grammar |
| Grammar.EofExactly | sources/libraries/http2_asio/utils/http_parser.cpp:647-667 | The end of the input is accepted exactly if by the callbacks no message is under way, or one whose body ends with the connection; the two exceptions are named |
| Grammar.EofTracks | sources/libraries/http2_asio/utils/http_parser.cpp:649-655 | So does the message_complete at the end of the input |
| Grammar.DeadIsSilent | sources/libraries/http2_asio/utils/http_parser.cpp:704-712 | A parser that must not read another message makes no more callbacks |
| Delivery.SessionAccepted | sources/libraries/http2_asio/utils/http_parser.cpp:80-133 | After any session, wherever it was cut and paused, the callbacks made were in order |
| Delivery.CallAccepted | sources/libraries/http2_asio/utils/http_parser.cpp:80-133 | So were they after one more call, whatever ended it: its bytes all taken, an upgrade, a callback, a parse error or a header overflow |
| Delivery.DeliveredAccepted | sources/libraries/http2_asio/utils/http_parser.cpp:2102-2107 | And without the marked bytes that an error leaves undelivered, so what the callbacks were actually given is in order |
| Delivery.RunStuck | sources/libraries/http2_asio/utils/http_parser.cpp:695-2076 | What the monitor has rejected stays rejected, so acceptance at the end covers the whole run |
| Monitor.FollowEmit | sources/libraries/http2_asio/utils/http_parser.cpp:105-133 | The monitor does not see how a run of data was cut into callbacks |
| Alphabets.DigitExact | sources/libraries/http2_asio/utils/http_parser.cpp:414-414 | The digits are those of "0123456789", and each is worth its place in it |
| Alphabets.UnhexExact | sources/libraries/http2_asio/utils/http_parser.cpp:224-233 | The hexadecimal digits are those of "0123456789abcdef" and "0123456789ABCDEF", each is worth its place in it, no other byte below 128 is one, and those from 128 on count as zero |
| Alphabets.TokenExact | sources/libraries/http2_asio/utils/http_parser.cpp:189-222 | The tokens table holds the letters, the digits and fifteen marks, and folds a capital to the small letter of the same place in the alphabet |
| Alphabets.LowerExact | sources/libraries/http2_asio/utils/http_parser.cpp:412-412 | Folding a value byte sets its bit 5 and changes nothing else |
| Alphabets.UserInfoExact | sources/libraries/http2_asio/utils/http_parser.cpp:417-429 | The characters of a userinfo and of a host name, written out |
| Alphabets.UrlCharExact | sources/libraries/http2_asio/utils/http_parser.cpp:236-276 | The characters of a path, written out |
| Numerals.DecimalWrites | sources/libraries/http2_asio/utils/http_parser.cpp:1515-1515 | A text of digits writes a number in base 10, told by the places of its digits, exactly if that is the number that is accumulated |
| Numerals.HexWrites | sources/libraries/http2_asio/utils/http_parser.cpp:1971-1980 | So does a text of hexadecimal digits in base 16, in any mix of cases |
| Numerals.HexTextWrites | sources/libraries/http2_asio/utils/http_parser.cpp:224-233 | Every size has such a text |
| Numerals.LengthStored | sources/libraries/http2_asio/utils/http_parser.cpp:1508-1621 | The number that an unfolded Content-Length value writes, without its spaces, is stored if it is at most 18446744073709551609, and refused if it is greater |
| Numerals.LengthRefused | sources/libraries/http2_asio/utils/http_parser.cpp:1508-1621 | Every other line of text is refused with the same error |
| Numerals.SizeStored | sources/libraries/http2_asio/utils/http_parser.cpp:1951-2002 | The number that a chunk size writes is stored if it is at most 18446744073709551599, and refused if it is greater |
| Numerals.SizeByteExact | sources/libraries/http2_asio/utils/http_parser.cpp:1956-1985 | What may follow a size, and that anything else is refused |
| Lengths.ContentLengthExact | sources/libraries/http2_asio/utils/http_parser.cpp:1508-1515 | With a first digit (1508-1515), digits and spaces after it (1596-1621): the value is accepted exactly if it is at most 2^64-7, is then what is stored, and never is the absent marker |
| Lengths.LengthExact | sources/libraries/http2_asio/utils/http_parser.cpp:1596-1621 | The same for the rest of a value from any accumulated length |
| Lengths.ChunkSizeExact | sources/libraries/http2_asio/utils/http_parser.cpp:1951-2002 | A run of unhex digits is accepted exactly if its value is at most 2^64-17, and is then what is stored |
| Messages.ChunkedRoundTrip | sources/libraries/http2_asio/utils/http_parser.cpp:1951-2069 | Chunks written with any spelling of their sizes and any extensions, a zero chunk, trailer lines and an empty line: the callbacks are exactly the announced sizes, the data, the chunk ends, the zero chunk, the trailers and one message_complete (the trailers are read at 1290-1812) |
| Chunks.PayloadOfChunks | sources/libraries/http2_asio/utils/http_parser.cpp:2032-2061 | The body bytes delivered are the concatenation of the chunks |
| Names.NameExact | sources/libraries/http2_asio/utils/http_parser.cpp:1290-1467 | At the colon each of the four states is reached exactly for its names, whatever the case of their letters, where two letters are the same if they have the same place in the two alphabets; the name is delivered as it was written |
| Values.ChunkedExact | sources/libraries/http2_asio/utils/http_parser.cpp:1624-1632 | An unfolded Transfer-Encoding value (start at 1499-1506, end at 1736-1763) sets F_CHUNKED exactly if it is "chunked" in any case followed by spaces only |
| Values.ConnectionExact | sources/libraries/http2_asio/utils/http_parser.cpp:1634-1711 | What an unfolded Connection or Proxy-Connection value does to the flags, for every list of elements, as a function of the elements |
| Values.ConnectionFlag | sources/libraries/http2_asio/utils/http_parser.cpp:1634-1711 | A flag is set if and only if it was, or the first element is its keyword, or some later element that is looked at is its keyword with leading spaces (and NULs) and trailing spaces dropped and in lower case |
| Values.ScanExact | sources/libraries/http2_asio/utils/http_parser.cpp:1649-1711 | The same from any element on; which elements are looked at is decided by the elements before them |
| Values.AllLookedAt | sources/libraries/http2_asio/utils/http_parser.cpp:1634-1703 | Every element is looked at as long as none before it is empty, a proper beginning of a keyword, or no token |
| Values.BeginningHides | sources/libraries/http2_asio/utils/http_parser.cpp:1676-1685 | Without that condition the recogniser misses elements: "clo,close" does not set the close flag |
| Folding.FoldForgets | sources/libraries/http2_asio/utils/http_parser.cpp:1736-1743 | A line that folds a value is delivered as part of it, and what the recogniser has found in the line before is forgotten: neither a keyword that ends that line nor one in the folded line sets a flag |
| Folding.FoldGoesOn | sources/libraries/http2_asio/utils/http_parser.cpp:1736-1743 | But a list goes on in the folded line when the line before ends with a comma |
| Folding.FoldedLength | sources/libraries/http2_asio/utils/http_parser.cpp:1508-1513 | A folded Content-Length is refused |
| Folding.FoldedEmpty | sources/libraries/http2_asio/utils/http_parser.cpp:1774-1781 | A value that has not begun when its line is folded begins after the fold |
| Refusals.RefusedExactly | sources/libraries/http2_asio/utils/http_parser.cpp:700-2075 | For every state, which bytes it refuses, by character classes written out, and with which error; and that there are no other errors but those of numbers that are too large and of a folded length |
| Refusals.BareLineFeed | sources/libraries/http2_asio/utils/http_parser.cpp:1168-1800 | In the head, a line feed alone ends a line as a carriage return and a line feed do |
| Refusals.BareReturn | sources/libraries/http2_asio/utils/http_parser.cpp:1279-1288 | And a carriage return that no line feed follows is refused |
| Refusals.SkippedRun | sources/libraries/http2_asio/utils/http_parser.cpp:700-2005 | The bytes that change nothing: empty lines before a request, spaces before the URL, the version and the status, blanks before a value, and a chunk extension |
| Refusals.ReasonOmitted | sources/libraries/http2_asio/utils/http_parser.cpp:874-896 | The reason phrase and the space before it may be left out |
| Methods.MethodComplete | sources/libraries/http2_asio/utils/http_parser.cpp:947-1093 | Every method name followed by a space is accepted as its own method, and so is every name that differs from it only in the second byte, for the methods whose second byte is not compared |
| Methods.MethodSound | sources/libraries/http2_asio/utils/http_parser.cpp:990-1093 | Whenever the matcher is left without an error, what it has read since the first letter is such a name of the method it leaves with, and the byte is a space |
| Methods.WalkReads | sources/libraries/http2_asio/utils/http_parser.cpp:998-1093 | As long as the matcher is at it, what it has read agrees with its method but for the second byte |
| Requests.RequestRoundTrip | sources/libraries/http2_asio/utils/http_parser.cpp:947-1897 | A printed request head, parsed: the method, URL, version and header lines come back in their order; what on_headers_complete is shown (chunked, length, close, keep-alive, upgrade) is a function of the header lines; and the parser goes on to the body that framing gives the message |
| Requests.UrlRuns | sources/libraries/http2_asio/utils/http_parser.cpp:1095-1166 | Every URL the URL machine accepts is delivered as one run |
| Requests.UrlSyntaxExact | sources/libraries/http2_asio/utils/http_parser.cpp:481-626 | The URLs of a request, as a syntax |
| Requests.UrlRefused | sources/libraries/http2_asio/utils/http_parser.cpp:1095-1166 | Any other text in the place of the URL is refused |
| Requests.RequestNumbers | sources/libraries/http2_asio/utils/http_parser.cpp:1202-1277 | The version that is shown is the two numbers that the head writes |
| Requests.VersionLimit | sources/libraries/http2_asio/utils/http_parser.cpp:1202-1277 | A version number greater than 999 is refused |
| Requests.FramedLength | sources/libraries/http2_asio/utils/http_parser.cpp:1508-1621 | The length that a Content-Length line of a printed head says is the number it writes |
| Requests.ShortRoundTrip | sources/libraries/http2_asio/utils/http_parser.cpp:1143-1157 | A request line without a version is one of version 0.9, and the header lines after it come back as ever |
| Responses.ResponseNumbers | sources/libraries/http2_asio/utils/http_parser.cpp:791-903 | The version and the status that are shown are the numbers that the head writes |
| Responses.NumberLimit | sources/libraries/http2_asio/utils/http_parser.cpp:805-903 | Greater ones than 999 are refused |
| Responses.EmptyLinesAnnounced | sources/libraries/http2_asio/utils/http_parser.cpp:751-772 | Every line end before a response announces a message |
| Responses.ResponseRoundTrip | sources/libraries/http2_asio/utils/http_parser.cpp:751-945 | The same for a response head: version, status, reason phrase and header lines |
| Either.EitherRequest | sources/libraries/http2_asio/utils/http_parser.cpp:714-749 | A parser of type both reads every method name like a parser of requests, but for HEAD it compares every byte |
| Either.EitherSound | sources/libraries/http2_asio/utils/http_parser.cpp:734-749 | Whenever such a parser leaves the matcher without an error, what it has read is a name of its method, and HEAD in full |
| Either.NewReadsRequest | sources/libraries/http2_asio/utils/http_parser.cpp:2161-2170 | A new parser, of requests or of both, reads a printed request head as RequestRoundTrip says |
| Either.NewReadsResponse | sources/libraries/http2_asio/utils/http_parser.cpp:2161-2170 | And one of responses or of both a printed response head |
| Either.EitherResponse | sources/libraries/http2_asio/utils/http_parser.cpp:734-797 | A parser of type both reads the start of a status line like a parser of responses |
| Messages.CountedRoundTrip | sources/libraries/http2_asio/utils/http_parser.cpp:1899-1949 | A printed request with a counted body, parsed: head, exactly its body bytes, one message_complete, and the keep-alive decision of its head |
| Messages.CountedResponse | sources/libraries/http2_asio/utils/http_parser.cpp:1899-1949 | The same for a response |
| Messages.ResponseUntilEof | sources/libraries/http2_asio/utils/http_parser.cpp:1936-1940 | A printed response whose body ends with the connection, parsed: exactly its body bytes, no message_complete, and one at the end of the input |
| Messages.ChunkedMessageRoundTrip | sources/libraries/http2_asio/utils/http_parser.cpp:1951-2069 | A printed request with a chunked body and trailers, parsed; the trailers may change whether the connection stays open, and nothing else |
| Messages.ChunkedResponse | sources/libraries/http2_asio/utils/http_parser.cpp:1951-2069 | The same for a response |
| Messages.BodyExact | sources/libraries/http2_asio/utils/http_parser.cpp:1899-1934 | Conservation: bytes delivered and bytes to come add up to the announced length, and the message completes exactly at it |
| Allowance.NreadTallies | sources/libraries/http2_asio/utils/http_parser.cpp:154-161 | After any session nread is the number of header bytes since it was last reset, but for at most one byte more for each call since then and the bytes forgotten since then; and but for these no more than 81920 header bytes of one head have been read |
| Allowance.NoOverflow | sources/libraries/http2_asio/utils/http_parser.cpp:698-699 | A session never overflows if at each byte of its last call the header bytes since nread was last reset and the calls since then leave room in the budget, whatever bodies, messages and calls there were before |
| Allowance.NoOverflowMost | sources/libraries/http2_asio/utils/http_parser.cpp:698-699 | In particular if the most header bytes since a reset and the number of all calls add up to at most 81920 |
| Allowance.NoOverflowBytes | sources/libraries/http2_asio/utils/http_parser.cpp:698-699 | In particular if all the bytes fed and the number of calls do |
| Tallies.CountedExactly | sources/libraries/http2_asio/utils/http_parser.cpp:360-360 | A byte is counted exactly if it is not delivered as body data and is not the line end after the data of a chunk |
| Tallies.ResetsExactly | sources/libraries/http2_asio/utils/http_parser.cpp:1858-1858 | The count starts again (also 2020, 2066) exactly after the bytes at which a head, a chunk size or the end of a chunk is announced, and never in trailers |
| Announced.NoLongHead | sources/libraries/http2_asio/utils/http_parser.cpp:143-161 | A head that is longer than 81920 bytes and those forgotten since nread was last reset before it never reaches on_headers_complete: wherever in the input it begins, however the input was cut, wherever callbacks paused the parser, and whatever the last call ended with, also where the jump gives up its search |
| Announced.StepAnnounces | sources/libraries/http2_asio/utils/http_parser.cpp:1803-1860 | on_headers_complete is called at a byte that resets nread, and nowhere else |
| Announced.ValueForgotten | sources/libraries/http2_asio/utils/http_parser.cpp:1548-1553 | When on_header_value stops a call at the carriage return after a value, the count of the loop (1721) is never made: nread is one more than before the bytes of the value that the loop has taken, however many they are and whether or not the value began in this call |
| Announced.LongHeadAnnounced | sources/libraries/http2_asio/utils/http_parser.cpp:1548-1553 | The bound of NoLongHead is attained: with one such pause a head with a value of any length is announced, and it can be exactly as long as the bound allows |
| Independence.MessageIndependence | sources/libraries/http2_asio/utils/http_parser.cpp:947-988 | A parser between two messages, of any type, does with its input what any other of its type does, whatever its other fields were left at |
| Independence.Pipelining | sources/libraries/http2_asio/utils/http_parser.cpp:714-772 | Messages that leave a parser open, and then more data: the callbacks are those of the messages, then those of the data in a new parser of the type that the parser has turned out to be |
| Independence.RunUnset | sources/libraries/http2_asio/utils/http_parser.cpp:714-945 | A parser sets the status code of responses only, and the method of requests only |
| Independence.StepSame | sources/libraries/http2_asio/utils/http_parser.cpp:700-2075 | Byte by byte, two parsers that agree on the fields that matter in their state go on to agree |
| UrlParser.ParsedUrl.Parse | sources/libraries/http2_asio/utils/http_parser.cpp:2358-2460 | The two passes succeed exactly on the URLs described by Accepts, and then every field is set exactly where the byte labels of the URL and host machines put it, and port is the number its digits write, at most 65535 |
| UrlParser.ParsedUrl.ParseHost | sources/libraries/http2_asio/utils/http_parser.cpp:2272-2351 | The second pass re-splits the authority in place, and fails exactly if the host machine fails or ends where it may not |
| UrlParser.PortRead | sources/libraries/http2_asio/utils/http_parser.cpp:2447-2457 | strtoul reads exactly the port: nothing of the authority follows it, and no digit follows the authority |
| UrlParser.PortLimit | sources/libraries/http2_asio/utils/http_parser.cpp:2447-2457 | A port is accepted exactly if the number it writes is at most 65535 |
| Splits.AcceptedExactly | sources/libraries/http2_asio/utils/http_parser.cpp:2358-2460 | A URL is accepted exactly if it is the print of some parts: both directions, for every text and for CONNECT as well; with UrlRoundTrip this says where every field of every accepted URL is |
| Syntax.UrlSyntax | sources/libraries/http2_asio/utils/http_parser.cpp:481-626 | The texts that the URL machine reads are exactly those of a syntax of schema, authority, and visible characters |
| Syntax.HostSyntax | sources/libraries/http2_asio/utils/http_parser.cpp:2190-2270 | The authorities that the host machine accepts are exactly those of a syntax of userinfo, name or bracketed address with zone, and port |
| Urls.UrlTogether | sources/libraries/http2_asio/utils/http_parser.cpp:480-626 | The URL machine never goes back, so each field is one stretch |
| Tiling.FieldsInOrder | sources/libraries/http2_asio/utils/http_parser.cpp:2371-2427 | The fields of a URL are disjoint and in the order schema, userinfo, host, port, path, query, fragment |
| Tiling.ByteOwned | sources/libraries/http2_asio/utils/http_parser.cpp:2374-2414 | Every byte of an accepted URL is in a field or is one of the delimiters : / @ [ ] ? # |
| Parts.UrlRoundTrip | sources/libraries/http2_asio/utils/http_parser.cpp:2358-2460 | Printed parts, parsed: the URL is accepted, each part is found where it was printed, and no other; delimiters may stand before parts that are empty |
| Output.OutputFifo | sources/include/http2_asio/http2_asio/connection.hpp:116-186 | Over every interleaving of completions, signals and timeouts: the bytes handed to the socket and then the chunk held over are exactly the chunks drained, in order, unless the library has failed; each write is non-empty and fits the buffer; the buffer of an outstanding write is as it was handed over; a connection that is neither stopped nor writing has nothing to hand over and has been told there is no more; a connection that is not stopped is reading |
| Output.FreshFifo | sources/include/http2_asio/http2_asio/connection.hpp:116-186 | So for every run of a connection from its start |
| Output.PackKeeps | sources/include/http2_asio/http2_asio/http2_session.hpp:58-96 | Packing chunks with a one-chunk holdover loses none and keeps their order |
| Output.PackFits | sources/include/http2_asio/http2_asio/http2_session.hpp:75-95 | The packed bytes fit the buffer, and packing stops only at the end of the output, a failure, or a chunk that does not fit |
| Output.PackDraws | sources/include/http2_asio/http2_asio/http2_session.hpp:75-95 | The chunks drained are the answers of the library from the first on, each once and in order, and it is asked until it fails, has no more, or the buffer is full |
| Output.PackFails | sources/include/http2_asio/http2_asio/http2_session.hpp:78-80 | Packing fails exactly if some answer is an error, all before it are chunks, and these fit the buffer after the chunk held over |
| Output.EventDraws | sources/include/http2_asio/http2_asio/connection.hpp:116-186 | What an event drains are answers to that event; none if a write goes on or the event brings an error |
| Output.StopsExactly | sources/include/http2_asio/http2_asio/connection.hpp:97-186 | When an open connection stops, in terms of the event and of what was outstanding and held over: exactly if the event reports an error, a refused read or an expired deadline, or the library fails in it, or the session says it is over and no write is outstanding; otherwise it stays open and reading, and a write is outstanding exactly if it was and is not complete, or there was something to write |
| Output.BufferStable | sources/include/http2_asio/http2_asio/connection.hpp:148-152 | While a write is outstanding no other event changes buffer, holdover or what was handed over |
| Output.CleanStop | sources/include/http2_asio/http2_asio/connection.hpp:137-140 | A connection closed because the session is over has handed over every chunk drained |
| Output.FailureExact | sources/include/http2_asio/http2_asio/http2_session.hpp:78-80 | When the library may fail: asking for output loses no byte if and only if it does not fail or nothing was packed, and nothing is packed before a failure exactly if nothing was held over and the first answer is the failure |
| Output.FailureLoses | sources/include/http2_asio/http2_asio/http2_session.hpp:78-80 | An instance: the bytes packed before the failure are lost |
| Connections.Session.OnWrite | sources/include/http2_asio/http2_asio/http2_session.hpp:58-96 | The loop over the buffer packs exactly as specified, overwrites nothing behind the packed bytes, and no callback made inside it starts another write |
| Connections.Connection.WriteData | sources/include/http2_asio/http2_asio/connection.hpp:148-186 | The method in place refines the machine |
| Connections.Connection.ReadDone | sources/include/http2_asio/http2_asio/connection.hpp:124-143 | The completion of a read refines the machine and keeps its invariant |
| Connections.Connection.WriteDone | sources/include/http2_asio/http2_asio/connection.hpp:174-184 | The completion of a write refines the machine and keeps its invariant |

## Left out

- Non-strict mode: wider character classes and no strict checks; it adds no structure.
- Reason phrases and URLs are delivered byte for byte; nothing is said about their encoding.
- Requests.RequestRoundTrip: the printer puts one space after the colon and none before the line break, other blanks are covered by the machine only; with several Content-Length lines the last one counts, as in the code, which does not compare them.
- Sessions.SessionFeeds: nread is not part of the state that is compared, because it depends on how the input is cut; Allowance bounds it.
- Callbacks that rewrite private fields of the parser, and memory layout.
- http_body_is_final: a test of one state; http_errno_description, http_method_str, http_parser_version and the initialisers of settings and URL: tables and memset.
- nghttp2, Boost.Asio, OpenSSL and sockets: the HTTP/2 library is an oracle of chunks, and what the peer receives is not modelled; write_data ignores the number of bytes sent.
- http2_session::on_read and should_stop: their answers are parameters of the events.
- The stream map of a session, the callbacks of http2_session.cpp, the server, the pool of io services, TLS negotiation and deadlines: plumbing around empty methods; a timeout is an event that may come at any time.
