# A model of an LDAP client library

This project models the hard core of a Go LDAP client in Dafny and proves properties of the model for
all inputs, all runs and all reachable states.

* **The connection's message protocol** (`Connection*.dfy`). Callers, timers, readers, `Close` and the
  message processor share a mutex, a bounded queue, the map of message contexts and one responses
  channel per request. `Connection` is a step system: each step is one atomic section of the code, and
  the scheduler, the network, the timers and the callers are free choices. A run is any sequence of
  enabled steps from the initial state. What the Go runtime would answer with a panic (a send on or a
  close of a closed channel, the nil that a closed queue yields, an underflow of the unsigned counter)
  sets a `fault` field. `ConnectionSafety`, `ConnectionLedger`, `ConnectionChannels`,
  `ConnectionRouting`, `ConnectionReplies` and `ConnectionReaders` prove what every step keeps;
  `ConnectionRuns` states the guarantees over whole runs; `ConnectionObject` is the object whose methods
  perform the sections in place, each proved to be the step it stands for.
* **Search filters** (`Filter.dfy`, `FilterRoundTrip.dfy`). The recursive compiler with its scanning
  state machine, the decompiler and the value escape, on octet strings and filter trees. Compiling a
  printed tree gives the tree back exactly when the tree is printable.
* **Distinguished names** (`DnEscape.dfy`, `Dn.dfy`, `DnEquality.dfy`, `DnRoundTrip.dfy`,
  `DnCanonical.dfy`, `EscapeDn.dfy`, `Lexicographic.dfy`). The octet-scanning parser, the escapes, the
  sorting printer and equality by consuming match. The printed text is a canonical form, and parsing it
  gives an equal name.
* **Search results** (`Search.dfy`, `SearchPaging.dfy`, `SearchAsync.dfy`, `SearchStreams.dfy`). One
  search over a reply stream, paging over any server, and the asynchronous producer and consumer under
  every schedule, buffer size and cancellation.
* **Two small codecs** (`Digest.dfy`, `Postal.dfy`): DIGEST-MD5 directives and postal addresses.

`Bytes.dfy` and `Utf8.dfy` hold octets, hexadecimal digits and Go's UTF-8 decoding and encoding, with
invalid octets read as U+FFFD.

Where a promised law does not hold for every input, the project states the exact condition under which it
does, as an if-and-only-if, and gives inputs on which it fails:

* a filter tree does not come back when its rule is `dn` without the dn flag, when it has no substrings or
  an empty one, or when its attribute contains or completes an operator (`FilterRoundTrip.RoundTrip`; inputs in
  `RuleNamedDn`, `NoSubstrings` and `AttributeEndsInOperator`);
* the empty name and the name of one empty RDN have the same text (`DnCanonical.Canonical`;
  `EmptyRdnIsInvisible`);
* text that is copied rune by rune survives exactly when it is valid UTF-8 (`EscapeDn.EscapeIsFaithful` and
  `InvalidValueIsLost`, `Postal.RoundTrip` and `InvalidLineIsLost`), and directive values exactly when they are
  ASCII (`Digest.RoundTrip` and `LatinValueIsWidened`);
* an enforced size limit is applied to each page, so that paged and unpaged search differ unless the whole
  list is within the limit or the first page with an entry exceeds it (`SearchPaging.PagedLimit`;
  `LimitIsPerPage`);
* asynchronous and synchronous search differ on entry controls, intermediate responses, empty references,
  entries without an attribute list and unknown operations (`SearchStreams.AsyncRefinesSync`;
  `IntermediateDiffers` and `BareEntryDiffers`).

One law has a sufficient condition only. At most one reader consumes the connection in every run in which no
packet with a StartTLS request's id is read before that request is counted (`ConnectionRuns.OneReader`); every
server that answers only written requests meets it (`HonestRunIsPatient`). `EagerServer` is a run of a server
that does not, with two readers. A run that breaks the condition need not end so.

Environment: the network, timers, the scheduler, cancellation and the server are parameters or free
choices. `timed` says whether the request timeout may be positive in a run; `lifetime` is the number of
requests a connection accepts while paging. The BER decoding of a `#hex` attribute value is a function
parameter.

Two branches of `SearchWithPaging` are dead in the source and absent here: a nil result without an error,
and the "abandon paging" request after the loop, which is reached only with the paging control set to nil.

## Model

| member | source | states |
|---|---|---|
| `ConnectionRuns.NeverFaults` | v3/conn.go:323-353 | In no state of any run has anything been sent on or closed a closed queue or responses channel, has the nil of a closed queue been dequeued, or has the counter underflowed, even when `Close` gives up waiting for the confirmation |
| `ConnectionRuns.RequestsPrecedeQuit` | v3/conn.go:525-533 | In every state, a Quit in the queue is the only one and is behind every other message, so each accepted request is processed before it |
| `ConnectionRuns.ShutdownReleases` | v3/conn.go:535-552 | When `processMessages` has returned, the queue and the map are empty and the responses channel of every accepted request is closed |
| `ConnectionRuns.ClosedIsFinal` | v3/conn.go:55-81 | Once a responses channel is closed, it stays closed and its handler receives nothing more in the rest of the run |
| `ConnectionRuns.AcceptedIdsAreDistinct` | v3/conn.go:365-370 | Accepted requests have pairwise distinct ids of at least 1; the 0 handed out after shutdown is never accepted |
| `ConnectionRuns.RegisteredIsOpen` | v3/conn.go:577-579 | A context is in the map only under its own request's id, only when that request was accepted, and only while its channel is open |
| `ConnectionRuns.Routing` | v3/conn.go:605-612 | A handler has received a subsequence of the packets with its id dispatched since its request was written; without a timeout a prefix, and all of them up to the one in flight until it is done or dropped |
| `ConnectionRuns.OwnPacketsOnly` | v3/conn.go:605-608 | Every packet a handler has received carries the id of its own request |
| `ConnectionRuns.DispatchedInOrder` | v3/conn.go:671-678 | In every state the packets put into the queue are those dispatched followed by those still queued, in that order |
| `ConnectionRuns.UnexpectedIsLate` | v3/conn.go:605-612 | A reply is rejected as unexpected only when every written request with its id is done or has timed out |
| `ConnectionRuns.OutstandingIsConserved` | v3/conn.go:466-516 | The counter is the number of requests counted and not discounted in every state; while the connection is not closing, none of those has lost its discount |
| `ConnectionRuns.StartTLSIsExclusive` | v3/conn.go:466-481 | While the StartTLS flag is set exactly one request is counted, the counter is 1 and that request is a StartTLS request |
| `ConnectionRuns.OnlyOwnerClearsFlag` | v3/conn.go:504-516 | The flag is cleared only by the finish section of the StartTLS request that set it |
| `ConnectionRuns.OneReader` | v3/conn.go:403-445 | If no packet with a StartTLS request's id is read before that request is counted, at most one reader ever consumes the connection, and when StartTLS has taken its reply all earlier readers have committed to stop |
| `ConnectionRuns.HonestRunIsPatient` | v3/conn.go:564-579 | Every run against a server that answers only written requests satisfies that condition |
| `ConnectionRuns.EagerServer` | v3/conn.go:633-680 | A run with two readers against a server that answers id 1 before request 1 is written |
| `ConnectionRuns.InvStep` | v3/conn.go:535-680 | Every enabled step from a state that satisfies the whole invariant leads to one that does |
| `ConnectionSafety.QueueStep` | v3/conn.go:323-353 | Every step keeps the relation of queue, Quit, closing flag, closer and processor |
| `ConnectionSafety.IdStep` | v3/conn.go:365-370 | Every step keeps ids distinct, below the counter, and 0 only for callers that are never let through |
| `ConnectionLedger.CountStep` | v3/conn.go:479-512 | Every step keeps the counter equal to the number of charged callers |
| `ConnectionLedger.TlsStep` | v3/conn.go:468-515 | Every step keeps the flag set exactly while a StartTLS request is charged, alone |
| `ConnectionChannels.PlaceStep` | v3/conn.go:564-628 | Every step keeps each accepted request with an open channel in exactly the places it may be: queued once and unwritten, registered and written, or being told of a failed write |
| `ConnectionRouting.RouteStep` | v3/conn.go:564-612 | Every step keeps what each handler received in step with what was dispatched to it |
| `ConnectionReplies.OrderStep` | v3/conn.go:559-612 | Every step keeps arrival order equal to dispatch order |
| `ConnectionReplies.KeptStep` | v3/conn.go:613-628 | Every step keeps a written request registered until it is done, timed out or shut down, and Finish messages only for done requests |
| `ConnectionReaders.ReadersStep` | v3/conn.go:633-680 | Under that condition, every step keeps at most one uncommitted reader, none once the StartTLS reply is past the flag check |
| `ConnectionReaders.AnsweredIsQuiet` | v3/conn.go:411-442 | When StartTLS is about to start its reader, every earlier reader is committed to stop |
| `ConnectionObject.Conn.constructor` | v3/conn.go:288-310 | A new connection is the initial state |
| `ConnectionObject.Conn.NextMessageID` | v3/conn.go:365-370 | Takes the processor's next id, or 0 exactly when the processor has stopped |
| `ConnectionObject.Conn.CheckClosing` | v3/conn.go:463-509 | The unlocked closing checks of sending and finishing, as steps |
| `ConnectionObject.Conn.CountRequest` | v3/conn.go:466-481 | Refuses during StartTLS, refuses StartTLS with requests outstanding, otherwise counts the request and sets the flag for StartTLS |
| `ConnectionObject.Conn.SendProcessMessage` | v3/conn.go:525-533 | Appends to the queue exactly when the connection is not closing; the queue is then open |
| `ConnectionObject.Conn.SubmitRequest` | v3/conn.go:483-502 | Accepts the request exactly when its message entered the queue |
| `ConnectionObject.Conn.CloseDone` | v3/conn.go:505-505 | Closes the open done channel |
| `ConnectionObject.Conn.DiscountRequest` | v3/conn.go:511-516 | Discounts the request without underflow and clears the flag |
| `ConnectionObject.Conn.SubmitFinish` | v3/conn.go:518-522 | Queues the Finish message unless closing |
| `ConnectionObject.Conn.FireTimer` | v3/conn.go:584-603 | Queues the Timeout message unless closing |
| `ConnectionObject.Conn.HandleMessage` | v3/conn.go:560-628 | The five cases of the processor, up to `sendResponse` |
| `ConnectionObject.Conn.ProcessMessage` | v3/conn.go:559-560 | In every reachable state there is a message to take, and it is handled in one step |
| `ConnectionObject.Conn.SendResponse` | v3/conn.go:65-81 | The channel sent to is open; the reply is received or dropped, then the calling case is completed |
| `ConnectionObject.Conn.CleanUp` | v3/conn.go:540-549 | One turn of the deferred cleanup, with the close error if there is one |
| `ConnectionObject.Conn.Confirm` | v3/conn.go:550-551 | The processor stops once the map is empty |
| `ConnectionObject.Conn.Close` | v3/conn.go:323-353 | Sets the flag, sends Quit, closes the still open queue |
| `ConnectionObject.Conn.ReadStep` | v3/conn.go:644-679 | The reader's read, error, flag check and forward sections |
| `ConnectionObject.Conn.StartReader` | v3/conn.go:429-444 | A successful StartTLS starts one reader |
| `FilterRoundTrip.RoundTrip` | v3/filter.go:77-200 | For every tree of any depth, compiling its printed text succeeds with exactly that tree if and only if the tree is printable |
| `FilterRoundTrip.PrintIsInjective` | v3/filter.go:95-200 | Two printable trees with the same text are the same tree |
| `FilterRoundTrip.DescriptorsSurvive` | v3/filter.go:277-346 | On descriptor-alphabet names, only the rule `dn` without the dn flag is unprintable |
| `FilterRoundTrip.RuleNamedDn` | v3/filter.go:280-305 | The rule `dn` without the dn flag never comes back |
| `FilterRoundTrip.NoSubstrings` | v3/filter.go:399-430 | A substring filter without substrings never comes back |
| `FilterRoundTrip.AttributeEndsInOperator` | v3/filter.go:307-317 | The attribute `>` before `=` never comes back |
| `FilterRoundTrip.EscapedValueIsInert` | v3/ldap.go:324-349 | For every octet string, "(attr=" + escaped value + ")" compiles to exactly that equality |
| `FilterRoundTrip.UnescapeOfEscape` | v3/filter.go:440-486 | Decoding escaped symbols undoes `EscapeFilter` on every octet string |
| `Filter.EscapeFilter` | v3/ldap.go:324-349 | The two passes fill a buffer of exactly the counted size with the escape of every octet |
| `Filter.DecodeEscapedSymbols` | v3/filter.go:440-486 | The reader loop computes the decoding, or fails where it does |
| `Filter.DecompileFilter` | v3/filter.go:95-200 | The recursion prints the tree |
| `Filter.CompileFilter` | v3/filter.go:77-92 | Total; success means a non-nil tree read from the opening parenthesis to exactly the last octet, although a recovered panic below loses its error |
| `Filter.SwallowedStaysShort` | v3/filter.go:218-226 | A recovered panic returns a position too low for the text ever to be accepted |
| `Filter.CompileAt` | v3/filter.go:218-253 | The recursive compiler, with every branch and failure |
| `Filter.CompileFilterSet` | v3/filter.go:202-216 | The loop over the filters of a set |
| `Filter.CompileItemLoop` | v3/filter.go:254-364 | The scanning loop with its three states |
| `Filter.BuildPacket` | v3/filter.go:366-436 | Presence, substrings, comparisons and extensible matches from the scanned parts |
| `DnEscape.DecodeUndoesEncode` | v3/dn.go:96-252 | Decoding any number of blanks, an encoded octet string and any number of blanks gives the string, for types and values |
| `DnEscape.EscapeParity` | v3/dn.go:96-117 | An octet is escaped exactly when an odd number of backslashes precedes it |
| `DnEscape.EncodeString` | v3/dn.go:196-252 | The loop computes the encoding |
| `DnEscape.StripLeadingAndTrailingSpaces` | v3/dn.go:96-117 | The loops strip blanks and keep an escaped trailing one |
| `DnEscape.DecodeString` | v3/dn.go:123-193 | The loop computes the decoding, or fails where it does |
| `Dn.ParseDN` | v3/dn.go:278-339 | The scanning loop computes the parse, with every error |
| `Dn.ParseShape` | v3/dn.go:278-339 | An accepted name has a non-empty type in every attribute and an attribute in every RDN, and one RDN more than there are unescaped commas and semicolons |
| `Dn.RelativeString` | v3/dn.go:72-80 | Prints the attributes of an RDN sorted by their text |
| `Dn.String` | v3/dn.go:88-94 | Prints a name |
| `DnRoundTrip.RoundTrip` | v3/dn.go:88-94 | Parsing the text of a name succeeds with an equal name if and only if every RDN has an attribute and every attribute a type |
| `DnCanonical.Canonical` | v3/dn.go:344-415 | Two names have the same text if and only if they are equal, but for the empty name and the name of one empty RDN |
| `DnCanonical.EmptyRdnIsInvisible` | v3/dn.go:72-94 | The empty name and the name of one empty RDN have one text and are not equal |
| `DnCanonical.CanonicalWithoutEmptyRdns` | v3/dn.go:344-415 | Without empty RDNs, same text and equality coincide |
| `DnCanonical.PrintIsNormal` | v3/dn.go:278-339 | The text of an accepted name is accepted and printed unchanged |
| `DnCanonical.JoinIsInjective` | v3/dn.go:72-94 | Joined texts determine their pieces, because separators inside a piece are escaped |
| `Lexicographic.SortForgetsOrder` | v3/dn.go:72-80 | Sorting two lists of texts gives the same list exactly when they hold the same texts equally often |
| `DnEquality.HasAllAttributes` | v3/dn.go:386-410 | The greedy consuming loop decides inclusion of multisets up to attribute equality |
| `DnEquality.OneInclusionDecides` | v3/dn.go:379-384 | With equal lengths one inclusion is equality, so the second call is redundant |
| `DnEquality.RelativeEqual` | v3/dn.go:379-384 | RDN equality is equality of multisets |
| `DnEquality.Equal` | v3/dn.go:344-357 | Name equality is equality of multisets RDN by RDN |
| `DnEquality.AncestorOf` | v3/dn.go:360-375 | Ancestry is being an equal proper suffix |
| `DnEquality.AncestryIsStrictOrder` | v3/dn.go:360-375 | Ancestry is irreflexive, asymmetric and transitive |
| `DnEquality.AncestryRespectsEquality` | v3/dn.go:360-375 | Ancestry does not distinguish equal names |
| `EscapeDn.SplicedValueIsInert` | v3/ldap.go:354-389 | "type=" + `EscapeDN(v)`, at the start of a name or behind any unescaped separator, and before the end or any separator, is read as that one attribute with v copied rune by rune; the text in front and behind is read as without it |
| `EscapeDn.SpliceChangesOneValue` | v3/ldap.go:354-389 | Two values spliced in at one place of a text give the same error, or names that differ at most in that one attribute value |
| `EscapeDn.EscapedValueIsInert` | v3/ldap.go:354-389 | At the start of a name: the attribute is the whole name, its first RDN before a comma or semicolon, or the first attribute of its first RDN before a plus sign; the rest is parsed as on its own, and blank text there is an error |
| `EscapeDn.EscapeIsFaithful` | v3/ldap.go:354-389 | Decoding an escaped value gives the value if and only if it is valid UTF-8 |
| `EscapeDn.InvalidValueIsLost` | v3/ldap.go:361-386 | The octet 0xFF comes back as the three octets of U+FFFD |
| `EscapeDn.EscapeDN` | v3/ldap.go:354-389 | The loop over runes and octet positions computes the escape |
| `SearchPaging.PagingIsFaithful` | v3/search.go:524-553 | Against any server, each request but the first carries the previous reply's cookie, the result is exactly the pages received with the partial one, and the loop ends for one of three reasons |
| `SearchPaging.PagedEqualsUnpaged` | v3/search.go:503-564 | For every division of a reply into pages with opaque cookies, and whatever the items, paged search returns the entries, referrals and error of the unpaged search |
| `SearchPaging.PagedLimit` | v3/search.go:586-590 | With an enforced size limit, and whatever the items, they agree if and only if the list up to its first faulty item is within the limit or the first page with an entry packet exceeds it |
| `SearchPaging.LimitIsPerPage` | v3/search.go:586-590 | For a server with two pages of one entry and a limit of one, the paged search returns both entries and no error, the unpaged search one entry and the size limit error |
| `Search.SearchWithPaging` | v3/search.go:503-564 | The four cases of the paging control, then the paging loop, with the request's controls as the caller finds them afterwards |
| `Search.Search` | v3/search.go:567-626 | The loop over the reply stream assembles the result, with the partial result on every error |
| `Search.FindControl` | v3/control.go:543-550 | The first control of the paging type |
| `SearchStreams.AsyncRefinesSync` | v3/response.go:85-222 | When the synchronous search succeeds, the asynchronous one gives the same entries, referrals and controls if and only if every packet is plain |
| `SearchStreams.PlainStreamsAgree` | v3/response.go:85-222 | On plain streams, failing ones included, both give the same entries, referrals and error |
| `SearchStreams.IntermediateDiffers` | v3/response.go:200-211 | An intermediate response before a successful Done: only the asynchronous search returns its control |
| `SearchStreams.BareEntryDiffers` | v3/response.go:143-149 | An entry without an attribute list: only the synchronous search returns it |
| `SearchStreams.ScheduleIsIrrelevant` | v3/response.go:76-83 | Under every schedule, buffer size and cancellation, what was sent is a prefix of what the stream determines, and all of it when the channel is closed without a cancellation |
| `SearchStreams.OneErrorAtMost` | v3/response.go:85-222 | In every run at most one error result is sent, and it is the last |
| `SearchStreams.EveryScheduleRefinesSync` | v3/response.go:51-83 | The refinement for what a consumer reads to the end under any schedule without cancellation |
| `SearchAsync.ErrorIsLast` | v3/response.go:85-222 | An uncancelled producer sends nothing after an error |
| `SearchAsync.Start` | v3/response.go:85-222 | The producer sends a prefix of what it would send uncancelled, and all of it unless cancelled |
| `SearchAsync.SearchResponse.Next` | v3/response.go:51-67 | Takes one result; on an error only the error field changes |
| `SearchAsync.Consume` | v3/response.go:51-67 | A loop on `Next` followed by `Err` yields the results before the first error by kind, and that error |
| `Digest.RoundTrip` | v3/bind.go:293-367 | Parsing printed directives with distinct names and blanks anywhere gives exactly the printed map if and only if every value is ASCII |
| `Digest.LatinValueIsWidened` | v3/bind.go:345-362 | The value octet 0xE9 comes back as the two octets of U+00E9 |
| `Digest.ParseOfText` | v3/bind.go:293-367 | Parsing printed directives, repeated names included, gives their meaning with each value octet as a character |
| `Digest.TwoPassesAreOne` | v3/bind.go:413-417 | The two replacements equal one simultaneous escape |
| `Digest.ParseParams` | v3/bind.go:293-367 | The loop over its three states computes the parse, with the position of a syntax error |
| `Postal.RoundTrip` | v3/postaladdress.go:48-110 | Parsing an escaped address succeeds, and gives its lines if and only if they are all valid UTF-8 |
| `Postal.InvalidLineIsLost` | v3/postaladdress.go:51-64 | The line of the octet 0xFF comes back as the three octets of U+FFFD |
| `Postal.ParsedIsConstructible` | v3/postaladdress.go:70-110 | A parsed address has at least one line and no empty line |
| `Postal.NewPostalAddress` | v3/postaladdress.go:19-33 | Keeps the non-empty lines in order, or fails when there is none |
| `Postal.Escape` | v3/postaladdress.go:48-67 | The nested loops compute the escape |
| `Postal.ParsePostalAddress` | v3/postaladdress.go:70-110 | The nested loops compute the parse, with the position of a bad escape |
| `Postal.Equal` | v3/postaladdress.go:113-130 | The index loop decides equality, of nil addresses too |

## Left out

- BER encoding and decoding: packets are trees; the `#hex` branch of a DN value is an uninterpreted function parameter.
- Dialing, URLs, socket I/O, TLS contents and debug output: a write succeeds or fails, a handshake succeeds or StartTLS returns without a reader.
- Panics and `recover` in the connection's goroutines (for example a packet whose id is not an integer): the guarantees are for runs without them, and the modelled ones are proved absent.
- Liveness, and in particular whether `Close` ever returns: it sends Quit into a bounded queue while holding the mutex.
- The last-error field, `GetLastError`, `TLSConnectionState` and `isTLS`.
- ConnectionRuns.OneReader: a sufficient condition on the packets read, not a necessary one; without any, `EagerServer` is a counterexample.
- ConnectionObject.Conn.Close: the waiting of a second `Close` on the first is not modelled; it changes no modelled state. Closing the network connection is not modelled either.
- DnEquality.HasAllAttributes: attribute types, and values where case is folded, are ASCII; Unicode folding is not modelled.
- DnEquality.RelativeEqual: the same restriction to ASCII.
- DnEquality.Equal: the same restriction to ASCII.
- DnEquality.AncestorOf: the same restriction to ASCII.
- DnCanonical.Canonical: attribute types are ASCII, for the same reason.
- DnCanonical.CanonicalWithoutEmptyRdns: attribute types are ASCII, for the same reason.
- DnCanonical.PrintIsNormal: attribute types are ASCII, for the same reason.
- DnRoundTrip.RoundTrip: attribute types are ASCII, for the same reason.
- Search.FindControl: only for the paging control type, the one its callers in paged search ask for.
- The filter grammar as an acceptor: which malformed texts `CompileFilter` accepts (it skips one character without checking it in two places) is modelled but not characterised.
- SearchAsync.Start: cancellation need not end the producer, because the error for malformed attributes is sent without watching the context.
- Search.SearchWithPaging: a request that holds the same paging control object twice has both updated in the source, one here.
- Digest.RoundTrip: values are printed as quoted strings; unquoted token values are parsed but have no printer here.
- SASL, NTLM and GSSAPI binds and the digest computation: foreign cryptography.
- Control encoders and decoders, error tables, and the builders of the other requests: mostly straight-line packet building.
- `Unmarshal`, `Print` and `PrettyPrint`: reflection and output.
