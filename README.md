# p2p-chat session core in Dafny

This project models the peer-session logic of the p2p-chat hook
(`src/hooks/useP2P.tsx`). Two browsers find each other through a five-digit
rendezvous code. The hook draws the code, checks a code the user types, and
derives the PeerJS identifier `"aperkaz-p2p-chat-" + code`. Its provider holds
three pieces of state: the own `code`, an optional transport `peer` and an
optional channel `connection`. It reacts to transport events and exposes
`connect`, `disconnect`, `sendMessage` and a status derived from `peer` and
`connection`.

Files:

- `Wrappers.dfy`: `Option`.
- `Identity.dfy`: `getCode`, `isValidCode` and `getId`. It includes a model of
  JavaScript's `parseInt` with no radix: leading white space, one sign, the
  `0x` hexadecimal prefix, and the longest digit run, with NaN as `None`. It
  also models the decimal text a template literal makes of a number.
- `IdentityExamples.dfy`: concrete inputs worked out from the general lemmas.
- `Transport.dfy`: the part of a PeerJS peer the hook uses. That is the
  per-remote list of channels (`peer.connections`), which `connect` and an
  inbound request add to, and the `send`, `close` and `disconnect` calls,
  which are recorded in order in an effect log.
- `Session.dfy`: the provider as a class with fields `code` (a `const`),
  `peer: Peer?` and `connection: Option<Conn>`. Each event is a method: the
  start-up effect, `connect`, an inbound request, an inbound "open",
  `disconnect` and `sendMessage`. The file also has a pure model of the
  auto-reciprocation guard over any sequence of transport events, and a
  two-provider handshake.

Behaviour of the code that the model keeps:

- `getCode` is `floor(random() * 89999) + 10000`, so 99999 is never drawn.
- For strings, `isValidCode` uses `parseInt`, so anything after the leading
  number is ignored. `"99999a"` is valid, and `"0x2710"` is valid because it
  is read as hexadecimal 10000.
- `getId` treats a falsy code (`0`, `""`) as absent and draws a fresh one.
- `peer` is stored right after the peer is constructed, not when the broker
  confirms registration. So "initialized" does not mean registered.
- The inbound "open" handler opens a return channel whenever the peer lists
  exactly one channel for that remote. It replaces any existing
  `connection` without the "already exists" check that `connect` makes.
- `disconnect` closes the channel and disconnects the peer, but clears
  neither field. The status therefore stays what it was.

Two of the code's own comments promise more than the code does, and the
model follows the code. The comment on `getCode` (src/hooks/useP2P.tsx:6)
says "between 10000 and 99999", but 99999 is never drawn. The comment on
`disconnect` (src/hooks/useP2P.tsx:34) speaks of cleaning up the current
connection, but neither field is cleared.

## Model

| member | source | states |
|---|---|---|
| `Identity.IsValidCode` | src/hooks/useP2P.tsx:9-16 | a number is valid iff it lies in [10000, 99999]; a string is read by `parseInt` first, NaN is rejected, and a valid string contains a decimal digit |
| `Identity.GetCode` | src/hooks/useP2P.tsx:5-8 | a code made from a draw in [0, 89998] lies in [10000, 99998] |
| `Identity.GetCodeRange` | src/hooks/useP2P.tsx:8 | exactly the codes in [10000, 99998] can be drawn; 99999 cannot |
| `Identity.GetCodeIsValid` | src/hooks/useP2P.tsx:8-15 | every drawn code passes `isValidCode`, both as a number and as its decimal text |
| `Identity.ParseDecimalText` | src/hooks/useP2P.tsx:11-12 | `parseInt` reads back the decimal text of any integer, whatever non-digit follows it (except that an `x` after a lone `0` starts hexadecimal) |
| `Identity.ParseIntNoDigits` | src/hooks/useP2P.tsx:11 | a string without any decimal digit parses to NaN |
| `Identity.ParseIntSkipsSpace` | src/hooks/useP2P.tsx:11-12 | leading white space does not change what `parseInt` reads |
| `Identity.ParseIntOfHex` | src/hooks/useP2P.tsx:11-12 | after `0x` or `0X`, `parseInt` reads the digits in radix 16 |
| `Identity.ValidTextMatchesNumber` | src/hooks/useP2P.tsx:9-15 | a string that starts with a number's decimal text is valid iff that number is in [10000, 99999], so trailing garbage is ignored |
| `Identity.NoDigitsInvalid` | src/hooks/useP2P.tsx:10-11 | a string with no digit (NaN to `parseInt`) is never a valid code |
| `Identity.GetId` | src/hooks/useP2P.tsx:20-21 | every identifier starts with the namespace prefix |
| `Identity.GetIdOfTruthy` | src/hooks/useP2P.tsx:20-21 | for a truthy code the identifier does not depend on the draw, and removing the prefix gives the code's text back |
| `Identity.GetIdRoundTrip` | src/hooks/useP2P.tsx:20-21 | `parseInt` of the identifier after the prefix gives a nonzero numeric code back, for codes below 10^21 in magnitude |
| `Identity.GetIdInjective` | src/hooks/useP2P.tsx:20-21 | distinct nonzero codes below 10^21 in magnitude give distinct identifiers |
| `Identity.GetIdOfFalsy` | src/hooks/useP2P.tsx:20-21 | an absent or falsy code (`0`, `""`) is replaced by a drawn code, so the identifier ends in a valid code |
| `IdentityExamples.BoundaryExamples` | src/hooks/useP2P.tsx:9-15 | `"10000"` is valid; `"9999"` and the number 100000 are not |
| `IdentityExamples.TrailingGarbageExample` | src/hooks/useP2P.tsx:10-12 | `"99999a"` is valid |
| `IdentityExamples.EmptyIsInvalid` | src/hooks/useP2P.tsx:10-11 | `""` is NaN to `parseInt` and so invalid |
| `IdentityExamples.LettersAreInvalid` | src/hooks/useP2P.tsx:10-11 | `"abc"` is NaN to `parseInt` and so invalid |
| `IdentityExamples.ParseIntPlusExample` | src/hooks/useP2P.tsx:11-12 | `parseInt(" +12345")` is 12345 |
| `IdentityExamples.ParseIntMinusExample` | src/hooks/useP2P.tsx:11-12 | `parseInt("-12345")` is -12345, so that string is invalid |
| `IdentityExamples.ParseIntHexExample` | src/hooks/useP2P.tsx:11-12 | `parseInt("0x2710")` is 10000 |
| `Transport.Peer.constructor` | src/hooks/useP2P.tsx:60 | `new Peer(id)` gives a peer under that identifier with no channels and nothing sent yet |
| `Transport.Peer.Register` | src/hooks/useP2P.tsx:76-80 | a new channel to or from a remote gets a fresh handle and goes at the end of that remote's list; nothing else changes |
| `Transport.Peer.Send` | src/hooks/useP2P.tsx:114 | sending records exactly one send of the message on the channel |
| `Transport.Peer.Close` | src/hooks/useP2P.tsx:106 | closing records one close of the channel and keeps the lists |
| `Transport.Peer.Disconnect` | src/hooks/useP2P.tsx:107 | disconnecting records one disconnect and keeps the lists |
| `Session.StatusOf` | src/hooks/useP2P.tsx:120-124 | the status is "disconnected" iff there is no peer, "initialized" iff there is a peer and no connection, and "connected" iff there are both; a connection without a peer reads as "disconnected" |
| `Session.IdOf` | src/hooks/useP2P.tsx:60 | the identifier of a code of at least 10000 is `getId(code)` whichever draw `getId` would have made, since such a code is truthy |
| `Session.Provider.Status` | src/hooks/useP2P.tsx:120-124 | the provider reads "disconnected" iff it has no peer, "initialized" iff it has a peer but no connection, and "connected" iff it has both |
| `Session.Provider.ConnectedIffChannel` | src/hooks/useP2P.tsx:120-124 | under the provider's invariant, "connected" iff a channel is held and "disconnected" iff there is no peer |
| `Session.Provider.constructor` | src/hooks/useP2P.tsx:51-53 | the provider mounts with a drawn code, no peer and no connection |
| `Session.Provider.Initialize` | src/hooks/useP2P.tsx:56-60 | only with neither peer nor connection, a fresh peer with no channels is created under `getId(code)` and stored (line 88); otherwise nothing changes, so a second run is a no-op |
| `Session.Provider.Connect` | src/hooks/useP2P.tsx:91-103 | fails in order with "not initialized", "Invalid code." and "A connection already exists.", each time changing nothing; otherwise files a fresh channel to `getId(code)`, a filing event of the reciprocation model, stores it, and the status becomes "connected" |
| `Session.Provider.OnInboundConnection` | src/hooks/useP2P.tsx:67-70 | an inbound request files a fresh channel under the remote's identifier, a filing event of the reciprocation model, and changes no provider state |
| `Session.Provider.OnInboundOpen` | src/hooks/useP2P.tsx:71-82 | a return channel to the remote is opened and stored, replacing any connection, iff the peer lists exactly one channel for that remote, which is an open event of the reciprocation model; otherwise nothing changes |
| `Session.Provider.Disconnect` | src/hooks/useP2P.tsx:105-108 | closes the connection if present, then disconnects the peer if present; never fails, clears neither field, and leaves the status unchanged |
| `Session.Provider.SendMessage` | src/hooks/useP2P.tsx:110-115 | throws "There is no open connection" without a channel; otherwise sends exactly the message once on it and changes no other state |
| `Session.Reciprocates` | src/hooks/useP2P.tsx:76 | the guard holds only when the remote has a list of channels and that list has exactly one entry |
| `Session.StepNeverShrinks` | src/hooks/useP2P.tsx:76-80 | no transport event shortens a remote's channel list |
| `Session.NoReciprocationPastOne` | src/hooks/useP2P.tsx:76 | once two channels are listed for a remote, no later "open" for it opens a return channel |
| `Session.AtMostOneReciprocation` | src/hooks/useP2P.tsx:74-81 | over any sequence of filings and opens, at most one return channel is opened per remote |
| `Session.FirstInboundReciprocates` | src/hooks/useP2P.tsx:71-81 | the first inbound request from an unknown remote is answered once it opens |
| `Session.DialThenInboundNeverReciprocates` | src/hooks/useP2P.tsx:76-100 | after the provider has dialled a remote itself, a request from that remote is never answered |
| `Session.StartPair` | src/hooks/useP2P.tsx:51-60 | two providers that mount and start up each hold their own fresh peer and no connection |
| `Session.Answer` | src/hooks/useP2P.tsx:67-82 | the first inbound request from an unknown remote, once open, leaves the provider connected over a channel to that remote |
| `Session.DialAndAnswer` | src/hooks/useP2P.tsx:67-100 | when B connects to A and A answers, both end "connected" over channels to each other, and B lists one channel for A |
| `Session.TwoPeerHandshake` | src/hooks/useP2P.tsx:51-100 | from two fresh providers, one connect and the answer leave both connected; B's list for A then has two channels, so A's return request is not answered |

## Left out

- React plumbing: the context, `useMemo` and `useCallback` memoisation, and the
  missing-provider check in `usePeerToPeer` (src/hooks/useP2P.tsx:142-149).
  Each state change is a direct field assignment, not a re-render.
- The page components and App's status-to-page routing (src/App.tsx,
  src/components/pages/Start.tsx and Chat.tsx), which are rendering only.
- Asynchronous scheduling: every callback is a method call made in the order
  the events arrive.
- The "data" and "close" handlers of a channel and the peer's "open" handler
  (src/hooks/useP2P.tsx:63-65, 68-70, 83-85) only log, so they have no method.
  All `console.log` output is left out too.
- `Math.random` and `Math.floor`: the draw is an integer parameter `k` in [0, 89998].
- Numbers that are NaN, non-integer or negative zero: `isValidCode`, `getId`
  and `connect` take integers. Start.tsx passes `parseInt` of the input field,
  which can be NaN. NaN fails the number check like an out-of-range value, but
  no NaN input is modelled.
- `Identity.DecimalText`: gives plain decimal digits for every integer. JavaScript
  switches to exponent form at 10^21 in magnitude (`${1e21}` is "1e+21"), and
  integers beyond 2^53 are not exact JavaScript numbers at all. The round-trip
  lemmas about `getId` are therefore stated below 10^21. In the session only
  five-digit codes reach `getId`.
- `Identity.ParseInt`: returns the exact integer where JavaScript returns the
  nearest double. Rounding keeps order, and 10000 and 99999 are exact doubles,
  so the range check gives the same answer.
- PeerJS internals: broker registration, NAT traversal and byte delivery.
  Removing a closed channel from `peer.connections`, and refusing `connect`
  after `disconnect`, are PeerJS behaviours that this model does not include.
  Here the lists only grow and `connect` always returns a channel.
- Channels are value handles (`Conn`), not objects. Their sends and closes go
  to the owning peer's effect log. What a channel delivers to the other side
  is not modelled.
