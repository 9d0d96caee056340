# wifi-cli, modelled in Dafny

wifi-cli is a terminal front end to `nmcli`. It lists the wireless networks, lets
the user move a `>` marker with the arrow keys, and asks for a password after
Enter. Then it runs `nmcli device wifi connect <ssid> password <pwd>` and shows
what that command printed. This project models the logic of `src/main.rs` as
pure functions and proves properties about them:

- `navigation.dfy` (module `Navigation`) models `match_evt`. Up and Down move
  `selector_pos`, a `u8` modelled by the subset type `u8`. Every key gets a
  `Continue`, `Select` or `Quit` response.
- `listing.dfy` (module `Listing`) models `str::lines`, `str::split` and
  `get_ssids`. `get_ssids` drops the header line and takes the space-free token
  at column 8 of each data line.
- `connector.dfy` (module `Connector`) models `authenticate`: its argument
  vector and how it classifies the process result.
- `controller.dfy` (module `Controller`) models the `state` 0/1/2 loop of
  `main`. `Step` is one loop iteration over a `Session` (the loop's variables)
  and `Run` is a sequence of iterations. Its phases `Browse`, `Password`,
  `Connect` and `Done` stand for states 0, 1 and 2 and for leaving the loop.
  The event read, the listing a refresh would obtain and the `nmcli` process
  are inputs (oracles) to each iteration. Each iteration reports its outside
  calls as an `Effect`: nothing, one refresh, or one `authenticate` with its
  argument vector.
- `scenarios.dfy` (module `Scenarios`) holds concrete sessions: a two-network
  listing, the connect outcomes, a full walk from start to connection, and a
  refresh that shrinks the list under the marker.

The source panics in several places. A debug build panics on `u8` overflow. It
also panics when slicing a line shorter than 8 characters, and when indexing the
identifiers past their end. The pure functions (`MatchEvt`, `MoveDown`, `SsidOf`,
`GetSsids`) list these conditions as preconditions. `Step` checks the same
conditions and ends the loop in `Done(Panicked)`, so that `Step` and `Run` are
total.

## Behaviour of the code worth knowing

- The identifier is read from byte offset 8 of each data line, whatever the
  columns before it hold. For the listing
  `"HEADER\nAA:BB SSID_ONE more cols\nCC:DD SSID_TWO\n"` the identifiers are
  `["ID_ONE", "ID_TWO"]` (`Scenarios.TwoNetworksSsids`).
- In the list view, every event other than `q` and Enter triggers a fresh scan
  and a redraw. This includes `r`, Esc, and keys and events the program does
  not tell apart.
- A listing with no data lines, with more than 255 data lines, or with a data
  line shorter than 8 characters is loaded and displayed like any other. The
  panics come later, on particular keys:
  - Down panics when the listing has no data lines or more than 255 of them,
    and when the position is 255 (src/main.rs:123-124).
  - Enter panics when the listing has no data lines, when any data line is
    shorter than 8 characters, or when the position is past the last data line
    (src/main.rs:151, 62).
- A refresh does not re-clamp the marker. `Controller.ShrinkThenSelectPanics`
  and `Scenarios.ShrinkingRefreshPanics` show that Enter after a shrinking
  refresh indexes past the list.
- The connect arguments are `device wifi connect <ssid> password <pwd>`, each
  of ssid and password as one whole argument.

## Model

| member | source | states |
|---|---|---|
| Navigation.MoveUp | src/main.rs:114-120 | Up lowers the position by exactly one, except at 0, where it stays at 0; it never goes below 0 or above the old position |
| Navigation.MoveDown | src/main.rs:122-124 | Down with `count` data lines gives a position below `count`, at most one more than before, and equal to either `pos + 1` or the last line `count - 1` (a clamp, not a wrap); defined only when the `u8` arithmetic does not overflow |
| Navigation.MatchEvt | src/main.rs:106-134 | `Quit` exactly for `q`, `Select` exactly for Enter, `Continue` for every other event; only Up and Down change the position, each as `MoveUp`/`MoveDown` |
| Navigation.Navigate | src/main.rs:112-126 | on a fixed list of 1 to 255 data lines, any sequence of events from a position inside the list keeps the position inside the list |
| Navigation.UpReachesTop | src/main.rs:114-120 | pressing Up at least `pos` times reaches the first entry |
| Navigation.DownReachesBottom | src/main.rs:122-124 | pressing Down at least `count - 1 - pos` times reaches the last entry |
| Navigation.OtherEventsKeepPosition | src/main.rs:128-132 | a run of events with no Up or Down leaves the position unchanged |
| Listing.Split | src/main.rs:152-153 | splitting at a separator gives at least one piece, no piece contains the separator, and joining the pieces with the separator gives back the text |
| Listing.SplitJoin | src/main.rs:152-153 | splitting a join of separator-free pieces gives back those pieces, so no piece is lost or merged |
| Listing.Lines | src/main.rs:147-149 | lines contain no newline, and there are none exactly when the text is empty; a newline-terminated (or empty) text is exactly its lines each followed by a newline, and any other text is its lines joined by newlines, the last one unterminated |
| Listing.SplitLastPiece | src/main.rs:147-149 | the piece after the last newline is empty exactly when the text is empty or ends with a newline, and then the other pieces, each followed by a newline, make up the text |
| Listing.UnlinesCons | src/main.rs:147-149 | writing lines as newline-terminated text writes the first line, a newline, and then the rest |
| Listing.LinesUnlines | src/main.rs:147-149 | reading back a listing written as newline-terminated lines gives those lines, empty lines included |
| Listing.DataLinesAfterHeader | src/main.rs:147-149 | the data lines of `header + "\n" + rest` are exactly the lines of `rest` |
| Listing.DataLinesOfUnlines | src/main.rs:147-149 | a header followed by newline-terminated lines has exactly those lines as data lines |
| Listing.HeaderIgnored | src/main.rs:147-149 | the data lines (and hence the identifiers) do not depend on the contents of the header line |
| Listing.SsidOf | src/main.rs:150-155 | the identifier of a line is a prefix of the line from column 8 on, holds no space, and runs to the end of the line or up to a space (it is empty if column 8 holds a space) |
| Listing.SsidFieldUnique | src/main.rs:150-155 | at most one token meets that description, so the identifier of a line is determined by it |
| Listing.GetSsids | src/main.rs:146-158 | one identifier per data line, in listing order, each the token at column 8 of its line; defined when every data line reaches column 8 |
| Connector.ConnectArgsInjective | src/main.rs:195 | ssid and password are passed as two whole arguments: equal argument vectors mean equal ssid and password |
| Connector.Authenticate | src/main.rs:192-206 | a launch failure is `Err(Program)`, a successful exit is `Ok(stdout)`, and an unsuccessful exit is `Err(Command(stderr))` |
| Connector.AuthenticateUsesOnlyConnectArgs | src/main.rs:194-197 | the outcome depends on the process only through the single run with the argument vector built from ssid and password |
| Controller.Start | src/main.rs:45-50 | a successful first scan opens the list view at position 0 with that listing and an empty password; a failed one ends the program with the error |
| Controller.Step | src/main.rs:53-101 | the per-state transitions: nothing happens after the loop ends; an empty read changes nothing; `authenticate` runs exactly in state 2 with the exact argument vector, and the loop ends right after; refreshes happen only in state 0 and install the new listing; `q` quits; Enter captures the highlighted identifier; every other key refreshes; a refresh whose scan fails ends the program with that error; Down outside the `u8` range panics; Enter on a listing with a short line or a position past the identifiers panics; in state 1 Esc quits, Enter moves on, and other characters are appended; panics arise only in state 0 |
| Controller.Run | src/main.rs:48-101 | one iteration per input; `authenticate` runs at most once per session, and from a live loop exactly when the session ends with a connect result; a session ending in a quit never called it |
| Controller.RunAppend | src/main.rs:53-101 | running two input sequences one after the other is the same as running their concatenation |
| Controller.IterateAppend | src/main.rs:53-101 | the same holds for the loop driven by any iteration function |
| Controller.RunIsIterate | src/main.rs:53-101 | `Run` is the loop driven by `Step` |
| Controller.PasswordIsTypedText | src/main.rs:74-82 | while neither Esc nor Enter arrives, the password is the old one followed by exactly the characters typed, in order (`q` and `r` included), and nothing else changes |
| Controller.ConfirmConnectsOnce | src/main.rs:78-96 | Enter in the prompt leads to exactly one `authenticate(ssid, pwd)` on the next iteration, and the loop then ends with its result |
| Controller.BrowseKeepsSelection | src/main.rs:56-63 | one iteration keeps the position inside the list (and does not panic) as long as the refresh does not shrink the list |
| Controller.NoPanicWhileScansDoNotShrink | src/main.rs:53-66 | over a whole run, the selection stays valid and no panic occurs while no refresh shrinks the list |
| Controller.ShrinkThenSelectPanics | src/main.rs:59-62 | a refresh that leaves no more data lines than the position, followed by Enter, panics at the index |
| Scenarios.TwoSsids | src/main.rs:146-158 | a header and two data lines give exactly the two lines' tokens |
| Scenarios.TwoNetworksSsids | src/main.rs:146-158 | the two-network listing gives `["ID_ONE", "ID_TWO"]` |
| Scenarios.ConnectOutcomes | src/main.rs:199-205 | exit 0 reports the standard output, a failed exit reports the standard error, and a launch failure is `Program` |
| Scenarios.WalkOnTwoNetworks | src/main.rs:53-96 | on any two-network listing: Down, Enter, a password, Enter, then one `authenticate` with the second identifier and that password, ending with its result |
| Scenarios.WalkToConnection | src/main.rs:41-104 | on the two-network listing, with `nmcli` accepting only `ID_TWO`/`hunter2`, the walk ends connected |
| Scenarios.ShrinkFromTwoToOnePanics | src/main.rs:59-62 | on any parsable two-network listing with the second network highlighted, a refresh down to one network followed by Enter panics |
| Scenarios.ShrinkingRefreshPanics | src/main.rs:59-62 | on the two-network listing with the second network highlighted, a refresh down to one network followed by Enter panics, whatever `nmcli` would do |

## Left out

- Terminal output is not modelled: raw-mode suspend and activate, clearing,
  cursor `Goto`, flushing, drawing the `>` marker, and the prompt and result
  screens (`refresh` and `clear_and_write`, src/main.rs:160-190). These are
  side effects in the termion library. A failing terminal write makes `main`
  return an error, and that error path is not modelled either. The code does not
  restore raw mode when the write at lines 177-184 fails, so there is no
  raw-mode guarantee to state.
- Starting `nmcli` is not modelled (src/main.rs:136-144, 194-197). The listing
  text and the connect process result are oracle inputs instead.
- UTF-8 decoding with `unwrap` (src/main.rs:143, 200, 203) is not modelled.
  The oracles deliver text, and that text is taken to be ASCII, so byte offsets
  are character indices.
- Connector.Authenticate: `Program` drops the boxed I/O error it carries in the
  source, because only the error's kind affects behaviour.
- `AuthError`'s `Display` text and the `format!` messages (src/main.rs:22-37,
  71, 90, 93) are presentation strings only.
- termion's event decoding and the blocking `stdin.events()` iterator
  (src/main.rs:52) are not modelled. Events arrive already decoded. `NoEvent`
  covers both end of input and a read error: with `NoEvent` the source loops
  again without doing anything, and so does `Step`.
- Listing.Lines: does not strip a `"\r"` before `"\n"` the way `str::lines`
  does, because `nmcli` ends lines with `"\n"` alone.
- Overflow is modelled with debug-build semantics, where it panics. A release
  build wraps around instead and is not modelled.
- The unreachable `_ => break` arm of the loop (src/main.rs:97) has no phase,
  because `state` only ever holds 0, 1 or 2.
