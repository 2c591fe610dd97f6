# A verified model of weiterleitung

weiterleitung accepts mail for aliases over SMTP, forwards it to the mailbox behind the alias
under a reverse alias of the sender, and sends the mailbox's replies back out as the alias.
This project models the path of a message through it and proves what its parts promise
together:

- `DataReader`, `Session`, `Client`, `Commands`: the payload reader and the command loop of one
  SMTP connection, what they make of a client that keeps to the protocol, and what every command
  line means;
- `HeaderFields`, `Messages`, `HeaderRewrite`, `Rewrite`: header blocks as fields with their
  continuation lines, and the two rewriters;
- `EmailAddress`, `Senders`, `Tables`, `Routing`, `ContactRace`: addresses and lookup keys, the
  SQL tables with their constraints, routing of recipients, and many connections creating
  contacts at once;
- `Outbox`, `DeliveryRuns`: the outbox, the retry schedule, and every run of spool, outbox and
  worker with crashes between any two steps;
- `Forecast`: what becomes of an envelope when storage works and nobody interferes, as a function
  of the tables and the next tokens;
- `Store`: the statements of the source on tables, outbox and spool as one value, histories of
  such statements, and which rows came from whom;
- `Database`, `Worker`, `Router`, `Server`: the same statements and loops as methods over
  mutable state, proved against those specifications;
- `WorkerRuns`: what the worker's methods do to a history is a run of `DeliveryRuns`;
- `EndToEnd`: what a 250 or a 451 to the final dot means, what mailbox and contact
  read, and the way home of a reply.

`dafny verify dfyconfig.toml` checks everything.

## How to read it

Bytes are characters: a message is a `string`, line by line, and case folding and white space
are ASCII. Storage may fail at any statement and then changes nothing, unless
`Database.reliable` is set. What the random generator yields is an unknown constant function,
`Database.dice`, and `Database.rolls` counts the tokens drawn from it; the relay's answers are
arbitrary choices; identifiers are drawn from a counter, so they are fresh.

What other connections, the worker, the administration and the clock do is an unknown constant
list of statements, `Database.tape`; between two statements of ours, `Database.Meanwhile` plays
any number of them. `Database.history` holds every state and every statement since the
database was made, ours (`Mine`) and theirs. `Valid()` says that the history explains the
present state and that theirs are the tape as far as it was played. So a contract that lists the
statements we ran and names the moments at which we looked leaves no room for other changes,
and none can be put down to somebody else. `Store.Gained` is the form this takes for the outbox:
exactly our rows and those that others inserted.

What the methods and their specifications both call is pinned down separately, in characters,
numbers and rows instead of in its own terms: verbs and answers in `Commands`, addresses in
`EmailAddress.ParseExactly`, folded fields in `HeaderFields.FoldedFieldIsRemoved` and its
neighbours, quoting and bytes in `Rewrite.QuotedExactly` and `Rewrite.ForwardInBytes`, domains in
`Routing.ForeignDomainIsRefused` and `Routing.AliasDecides`, and line ends, splitting, statements
on the tables and rows of the outbox in the other lemmas named `...Exactly` of `DataReader`,
`Messages`, `Tables`, `Outbox` and `Database`.

`T.Remembers(t, t')` is what no statement may take back from `t` to a later `t'`: rows keep
their identity, addresses never change, and contacts stay for as long as their alias does.

## Where the code and its description differ

- The comment above `backoff` (src/delivery/queue.rs:220) says it starts at one minute. The
  first delay ever applied is two minutes, because the counter is raised first; the model
  follows the code (`Outbox.TotalBackoffClosedForm`).
- `rewrite_for_forward` does not strip an incoming `X-Weiterleitung-Sender`
  (src/smtp/rewrite.rs:9-22), so a forward carries one more than the message it was made from
  (`Rewrite.SenderMarksAddUp`, and `Rewrite.TwoSendersExample` for one that carries two); the
  reply rewriter strips all of them.
- A reply rewrite does not absorb a forward rewrite for every message. `Rewrite.OrphanExample`
  has a message for which it does not; `Rewrite.ReplyAbsorbsForward` gives the exact condition,
  `HeaderRewrite.Absorbs`, which looks only at the first line and the header names.
- A message whose first line is empty is not split there, and a rewrite then turns its body
  into its header block (`Rewrite.BlankStartExample`). For every other message the body
  survives (`Rewrite.BodySurvives`).
- A reverse alias is stored as generated but looked up in normalised form. With an upper-case
  prefix no reply is ever routed (`Routing.UpperCasePrefixExample`).
  `Routing.GeneratedAliasComesHome` has the exact condition on the configuration,
  `Routing.RepliesComeHome`, and spells it out for a default domain without `@`; without it no
  recipient at all is routed to a contact (`Routing.NoReplyIsRouted`).
- A bounce whose `From` carries a display name with angle brackets is attributed to whatever the
  first brackets hold (`Senders.BracketedNameExample`; `Senders.SenderRecovered` has the exact
  condition).
- With `max_attempts` below one a message is still tried once, so the bounds are stated with
  `Cap`, the larger of one and `max_attempts`.

## Model

| member | source | states |
|---|---|---|
| HeaderFields.LinesOfJoin | src/smtp/rewrite.rs:48 | Cutting text behind every line feed loses nothing and is undone by joining: any list of lines is recovered from its concatenation. |
| HeaderFields.FlattenGroup | src/smtp/rewrite.rs:48-56 | Grouping lines into fields with their continuation lines, orphans at the top included, gives well-formed fields and keeps every line in order. |
| HeaderFields.GroupFlatten | src/smtp/rewrite.rs:48-56 | Well-formed fields are recovered from their lines, so fields and header blocks are two views of the same thing. |
| HeaderFields.StripHeaders | src/smtp/rewrite.rs:44-64 | The one-flag streaming filter returns the text of the fields that remain once the named ones are dropped with all their continuations. |
| HeaderFields.FieldsOfStrip | src/smtp/rewrite.rs:44-64 | Reading the filtered text again finds exactly the kept fields: dropping some never glues or splits others. |
| HeaderFields.StripComposes | src/smtp/rewrite.rs:44-64 | Filtering by two lists in turn is filtering by both at once, is independent of the order, and filtering twice by the same list changes nothing more. |
| HeaderFields.FindHeaderValue | src/smtp/rewrite.rs:67-89 | The streaming lookup returns the unfolded value of the first field with that name in any case, or nothing. |
| HeaderFields.LookupAfterStrip | src/smtp/rewrite.rs:44-89 | After filtering, a lookup finds nothing for a filtered name and for any other name what it found before, folded values included. |
| HeaderFields.ValueHasNoLineFeed | src/smtp/rewrite.rs:67-89 | An unfolded value never contains a line feed, so it cannot end the header line it is put into. |
| HeaderFields.FoldedFieldIsRemoved | src/smtp/rewrite.rs:44-64 | In characters: a field whose name is written in any case is removed with every line behind it that starts with a space or a tab, up to the first that starts with neither, and nothing else is touched. |
| HeaderFields.OtherFieldStays | src/smtp/rewrite.rs:44-64 | A field of any other name stays, byte for byte, with all lines folded onto it. |
| HeaderFields.FoldedFieldIsRead | src/smtp/rewrite.rs:67-89 | A lookup reads the first field of that name in any case: its trimmed value, and behind it each folded line, trimmed, after one space. |
| HeaderFields.NamelessLinesStay | src/smtp/rewrite.rs:44-89 | Folded lines that no field stands in front of, and lines without a colon, are never removed and never read. |
| Messages.FindBlankLine | src/smtp/rewrite.rs:36-40 | In CRLF-terminated text the first CRLFCRLF is found exactly in front of the first empty line after the first line. |
| Messages.NoBareBlankLine | src/smtp/rewrite.rs:30-32 | CRLF-terminated text has no two adjacent line feeds. |
| Messages.SplitByLines | src/smtp/rewrite.rs:26-34 | The byte-level split of CRLF-terminated text is the split of its lines at the first empty line after the first, and the bare-LF branch is never what decides. |
| Messages.SplitExactly | src/smtp/rewrite.rs:26-34 | For any bytes: the first CRLF pair divides header block and body, without one the first pair of bare line feeds, and without either there is no body. |
| HeaderRewrite.RewrittenLines | src/smtp/rewrite.rs:105-160 | A rewritten message is, line by line, the inserted lines, the kept fields, an empty line and the old body, and it is CRLF-terminated again. |
| HeaderRewrite.BodyPreserved | src/smtp/rewrite.rs:105-160 | Splitting the rewritten message gives back the old body if and only if the original did not start with an empty line, whatever is inserted and stripped. |
| HeaderRewrite.RewriteAbsorbs | src/smtp/rewrite.rs:105-160 | A second rewrite leaves no trace of a first one, whose lines it strips, if and only if the message does not start with a continuation line and, if it starts with an empty line, has no field that only the second one strips. |
| Rewrite.WriteHeaders | src/smtp/rewrite.rs:117-127 | Writing header lines one after the other gives the joined rendering. |
| Rewrite.RewriteForForward | src/smtp/rewrite.rs:105-131 | The buffer written step by step is the forward of the message, which the rows below give byte by byte. |
| Rewrite.RewriteForReply | src/smtp/rewrite.rs:142-160 | The same for the reply, which also strips recipients and the forward's marks. |
| Rewrite.QuotedExactly | src/smtp/rewrite.rs:163-173 | A display name is quoted exactly if it holds one of ten characters, listed one by one, so an unquoted one holds none; every backslash and quote in it is escaped once. |
| Rewrite.ForwardInBytes | src/smtp/rewrite.rs:105-131 | A forward is its four lines, in order, the header block without the twelve fields named in full, an empty line and the old body. |
| Rewrite.ReplyInBytes | src/smtp/rewrite.rs:142-160 | A reply is its three lines, the header block without the sixteen fields named in full, an empty line and the old body. |
| Senders.ForwardedFrom | src/smtp/rewrite.rs:109-173 | For every sender the new `From` is, in quotes, the escaped trimmed name and ` - ` if there is one, and the printed sender, and behind them the reverse alias in angle brackets. |
| Rewrite.ReplyAbsorbsForward | src/smtp/rewrite.rs:105-160 | Byte for byte, a reply written on a forwarded message is the reply written on the original, exactly when `Absorbs` holds of the original. |
| Rewrite.ReplyAbsorbsReply | src/smtp/rewrite.rs:142-160 | A second reply rewrite erases the first exactly when the message does not start with a continuation line. |
| Rewrite.BodySurvives | src/smtp/rewrite.rs:105-160 | Either rewriter keeps the body byte for byte exactly when the message does not start with an empty line. |
| Rewrite.ForwardedHeaders | src/smtp/rewrite.rs:105-131 | In a forward, every header name reads as the inserted value, as nothing if it is one of the stripped ones, listed by name, or as it did in the original. |
| Rewrite.RepliedHeaders | src/smtp/rewrite.rs:142-160 | In a reply the contact reads the alias as sender, itself as recipient, none of the stripped fields, listed by name, and all others unchanged. |
| Rewrite.OrphanExample | src/smtp/rewrite.rs:53-60 | A concrete message whose first line continues nothing, for which the forward leaves a trace in the reply. |
| Rewrite.BlankStartExample | src/smtp/rewrite.rs:26-34 | A concrete message starting with an empty line whose body neither rewriter keeps. |
| Rewrite.SenderMarksAddUp | src/smtp/rewrite.rs:9-22 | A forward carries exactly one `X-Weiterleitung-Sender` more than the message it was made from, and a reply carries none. |
| Rewrite.TwoSendersExample | src/smtp/rewrite.rs:9-22 | A concrete message whose forward names two senders. |
| EmailAddress.ParsePrint | src/domain/email_address.rs:14-68 | Printing any address that parsing can produce and parsing it again returns it. |
| EmailAddress.ParseNormalised | src/domain/email_address.rs:14-62 | The lookup key of any such address parses, and is its own lookup key. |
| EmailAddress.ParseExactly | src/domain/email_address.rs:14-52 | Exactly these texts are addresses: a local part of 1 to 64 characters, none of them white space or one of six others, and a domain of at most 255 letters, digits, hyphens and single inner dots; white space, angle brackets and trailing dots around them are undone, and so is upper case in the domain. |
| EmailAddress.ReverseAliasIsKey | src/contact/mod.rs:49-52 | A generated reverse alias is its own lookup key exactly when what the parser takes for local part and domain is lower case, valid and short enough, whatever token was drawn. |
| Senders.DisplayNameRecovered | src/smtp/router.rs:260-264 | A display name is read back from the quoted address written for it exactly when it is non-empty, trimmed and free of `<`, quotes and backslashes. |
| Senders.SenderRecovered | src/smtp/router.rs:244-257 | For the null sender, the address that a `From` quotes is recovered exactly when the name in front has no angle brackets or quotes that same address in its first ones. |
| Senders.EnvelopeSenderWins | src/smtp/router.rs:244-257 | Whoever gives an address at the envelope is the sender, whatever the `From` header says. |
| Senders.HeaderSenderIsRead | src/smtp/router.rs:244-257 | With the null sender it is the address in the header, on its own or in angle brackets; without a header there is none. |
| Senders.BracketedNameExample | src/smtp/router.rs:242-257 | With the null sender and the concrete name `<b@b.bb>`, the message is taken to be from that address, whoever sent it. |
| DataReader.BufReader.ReadLine | src/smtp/session.rs:66 | Reads exactly the first line of the remaining input, and nothing only at its end. |
| DataReader.ReadData | src/smtp/session.rs:187-227 | The reading loop returns the lines before the lone dot, unstuffed and with CRLF, if their total size fits the limit, and has consumed the input exactly up to and including the dot line. |
| DataReader.AcceptedIsNormal | src/smtp/session.rs:213-226 | Every accepted payload fits the limit and ends each of its lines, the last included, in CRLF. |
| DataReader.OnlyADotEndsData | src/smtp/session.rs:187-227 | The data ends at a line of one dot, with whatever line end, and at nothing else; without one there is no message. |
| DataReader.DataRoundTrip | src/smtp/session.rs:187-227 | Any lines that a client stuffs and terminates arrive unchanged if and only if they fit the limit, are refused for size otherwise, and in both cases all bytes behind the dot are left unread. |
| Session.SessionRefinesHistory | src/smtp/session.rs:64-182 | After any commands and verdicts, greeting, sender and recipients are what the history says: the last valid MAIL after a greeting that no greeting, RSET or finished DATA has closed, and the accepted RCPTs after it, in order. |
| Session.StateIsWellFormed | src/smtp/session.rs:51-182 | In every run a sender implies a greeting, recipients imply a sender, and there are at most fifty. |
| Session.HandedIsWellFormed | src/smtp/session.rs:141-163 | Every envelope handed over, in every run on every input, has 1 to 50 recipients, each accepted by the handler under that same sender, and the data just read, within the size limit. |
| Session.IdleCommandsLeaveNoTrace | src/smtp/session.rs:95-145 | Malformed, out-of-order and refused commands, any number of them at any place of any run, leave the rest of the run as it would be without them. |
| Session.OneFinalReplyEach | src/smtp/session.rs:57-181 | Over any run every command gets exactly one final reply, and each opened DATA one 354 besides. |
| Client.PathIsParsed | src/smtp/session.rs:236-254 | A trimmed address between angle brackets is recovered exactly, whatever parameters follow it. |
| Client.DataStaysInStep | src/smtp/session.rs:141-163 | In any open transaction, stuffed lines are handed over unchanged or refused with 552 exactly for their size, and the next command is read from right behind the dot. |
| Client.AfterRecipients | src/smtp/session.rs:64-140 | While a conforming client names its recipients, the state is its sender and those accepted so far. |
| Client.ConformingTransaction | src/smtp/session.rs:40-183 | From EHLO to the final dot, whatever the verdicts, the envelope handed over is the client's sender, the accepted recipients in order and its lines, or 552 exactly for size, and input behind it is untouched. |
| Commands.EveryLineIsRead | src/smtp/session.rs:69-181 | Every command line is read by its verb, in any case, with or without an argument and with any line end: eleven verbs, the empty one, and all others, which are unknown. |
| Commands.EveryAnswer | src/smtp/session.rs:75-181 | For every state and command the code of the answer and the new state: 250 to MAIL and RCPT exactly when sender or recipient is taken, at most fifty recipients, and nothing changed by any refusal. |
| Commands.ResetCancels | src/smtp/session.rs:165-169 | Over the bytes of the input: after a complete RSET, EHLO or HELO line nothing is handed over and DATA is answered with 503, until a MAIL and behind it a RCPT are answered with 250. |
| Commands.ArgumentExactly | src/smtp/session.rs:236-254 | The argument of MAIL and RCPT is the keyword in any case, a colon and a path, with white space around each, in at most 4096 characters; anything else is refused. |
| Commands.PathExactly | src/smtp/session.rs:245-251 | A path is what stands between angle brackets, whatever follows, or else the first word; a closing bracket without an opening one in front is refused. |
| Tables.ApplyKeepsConsistent | migrations/20260923000001_initial_schema.sql:11-44 | Every statement, cascades and failures included, keeps uniqueness, foreign keys and stored lookup keys. |
| Tables.AnyHistory | migrations/20260923000001_initial_schema.sql:11-44 | Any sequence of statements keeps all constraints, and never changes an address, a reverse alias or the owner of a row that survives. |
| ContactRace.SameContactForAll | src/contact/mod.rs:34-77 | However the statements of any number of connections interleave, all calls that return for the same alias and address, at whatever moments, return the same contact and reverse alias. |
| ContactRace.NothingIsTakenBack | src/contact/mod.rs:34-77 | Without deletions no contact row is lost or changed, and a call keeps what it returned. |
| ContactRace.ConstraintsAlwaysHold | src/contact/mod.rs:34-77 | In every state of every run, deletions included, pairs and reverse aliases are unique. |
| ContactRace.RereadSucceeds | src/contact/mod.rs:73-76 | Without deletions the contact never disappears between INSERT and the second SELECT. |
| Routing.RouteThroughReverseAlias | src/smtp/router.rs:45-73 | Mail to a reverse alias, however it is written, reaches the contact if it is from the mailbox and the alias is enabled, and is refused otherwise. |
| Routing.ReplyComesHome | src/smtp/router.rs:45-73 | A reply to the stored reverse alias is routed to its contact exactly when the reverse alias is its own lookup key under an owned domain, the sender is the mailbox in any case, and the alias is enabled. |
| Routing.GeneratedAliasComesHome | src/contact/mod.rs:49-52 | For a generated reverse alias, whatever its token, that is exactly when prefix and default domain are in normal form and its domain is served here; for a default domain without `@`, a short lower-case prefix and a valid lower-case domain. |
| Routing.UpperCasePrefixExample | src/contact/mod.rs:49-52 | With prefix `CT` no recipient, whoever writes, is ever routed to a contact. |
| Routing.NoReplyIsRouted | src/smtp/router.rs:45-73 | The same for every configuration that does not meet the condition, for all tables, senders and recipients. |
| Routing.HomeInEveryLaterState | src/smtp/router.rs:45-73 | In every later state in which the alias exists, mail to the reverse alias is routed to its contact exactly when the configuration allows it, the sender is the mailbox and the alias is enabled. |
| Routing.ReverseAliasLeadsNowhereElse | src/smtp/router.rs:45-73 | With such a configuration mail to a reverse alias is refused for anybody but the mailbox, and while the alias is disabled. |
| Routing.NewAliasIsRouted | src/alias/mod.rs:34-73 | A new alias under any configured domain, in any case, is routed to right away, whoever writes, unless its address is some contact's reverse alias. |
| Routing.ForeignDomainIsRefused | src/configuration.rs:69-73 | A recipient whose domain is none of the configured ones in any case is refused with the reason of a relay, whatever the tables hold. |
| Routing.AliasDecides | src/smtp/router.rs:76-93 | A recipient under any configured domain that is no reverse alias is routed, or refused as disabled or unknown, by its alias alone, however it is written and whoever writes. |
| Routing.ClosingAnAlias | src/alias/mod.rs:151-174 | Disabling or deleting an alias closes its address and its reverse aliases and changes where no other routed mail goes. |
| Routing.CountingChangesNoRoute | src/alias/mod.rs:184-221 | The activity counters never influence a route. |
| Outbox.BackoffClosedForm | src/delivery/queue.rs:220-227 | The clamped shift is two to the attempts capped at 360 minutes for every count, and the shifted value never exceeds 65536 before the cap. |
| Outbox.TotalBackoffClosedForm | src/delivery/queue.rs:186-227 | The delays before giving up with `n` attempts add up to `2^n - 2` minutes for `n` up to nine and to `510 + 360 (n - 9)` beyond. |
| Outbox.FailsAtTheLastAttempt | src/delivery/queue.rs:179-218 | A message whose attempts all fail, at whatever times, stays pending until the last one allowed, is then given up, and was held back by exactly that total. |
| DeliveryRuns.StepKeepsInvariant | src/delivery/worker.rs:12-112 | Each step of enqueue, claim, read, send, record, crash, restart, clock, file deletion or unlinking keeps the account of every message: sends and successes against recorded attempts, requeues and status. |
| DeliveryRuns.BoundedDelivery | src/delivery/queue.rs:86-218 | Over every run with crashes, restarts and lost status writes, sends number at most the attempts allowed plus the requeues of that message, and successful sends at most one plus its requeues; delivered means at least one successful send, and failed means all attempts were sent or the file was missing. |
| DeliveryRuns.NeverGivenUpEarly | src/delivery/worker.rs:74-108 | Unless spool files are deleted, a message is failed only after all the attempts allowed were sent. |
| DeliveryRuns.StatusesHold | src/delivery/queue.rs:86-218 | In every reachable state unfinished messages have attempts left, and everything the worker holds is marked as being sent with the attempts it read. |
| DeliveryRuns.NothingIsLost | src/delivery/queue.rs:86-218 | Over any stretch of any run no row is lost or rerouted, its bytes stay the same, and delivered and failed are final. |
| DeliveryRuns.SentAsQueued | src/delivery/worker.rs:74-92 | What is handed to the relay is byte for byte what was queued for that row. |
| DeliveryRuns.SpoolIsCrashSafe | src/delivery/queue.rs:44-81 | Unless spool files are deleted, in every reachable state each row's file exists with the queued bytes and the worker never finds one missing. |
| DeliveryRuns.SendsAreSpaced | src/delivery/queue.rs:186-218 | Any two sends of a message with the same number of requeues are at least the backoff of its recorded attempts apart. |
| DeliveryRuns.WorkIsBounded | src/delivery/queue.rs:179-218 | Outcomes recorded plus attempts still owed never exceed what the queued messages were granted. |
| Database.SelectDue | src/delivery/queue.rs:90-104 | The selection is ordered, within the limit, only of due rows, and skips no earlier-due row for a later one. |
| Store.ExecuteIsGood | migrations/20260923000001_initial_schema.sql:11-65 | Every statement of the source keeps all constraints, links and spool files, keeps every stored reverse alias a generated one, takes nothing back, and adds no row but the one it inserts. |
| Store.PastIsKept | src/delivery/queue.rs:38-218 | Between any two moments of any history, whoever ran what, no row loses its envelope, no file its bytes, and no surviving table row its identity. |
| Store.EveryRowIsAccountedFor | src/delivery/queue.rs:58-79 | Between any two moments of any history the outbox gains exactly the rows that one inserted, each once and kept, and those that somebody else inserted; if nobody else did, exactly the former. |
| Database.Database.Meanwhile | src/contact/mod.rs:73 | Others run some stretch of their list and nothing else, and take nothing back. |
| Database.Database.FindAliasByAddress | src/alias/mod.rs:76-112 | Finds the alias with that lookup key and the mailbox it belongs to, if any, or fails. |
| Database.Database.FindContact | src/contact/mod.rs:79-105 | Finds the contact of that alias with that address, if any, or fails. |
| Database.Database.FindContactByReverseAlias | src/contact/mod.rs:107-142 | Finds the contact behind that lookup key with its alias and mailbox, if any, or fails. |
| Database.Database.DeleteAlias | src/alias/mod.rs:169-174 | Takes contacts with it and clears links from the outbox, but every queued message stays with its envelope and bytes. |
| Database.Database.RecordAliasActivity | src/alias/mod.rs:184-221 | Raises one counter of that alias once or fails, and changes nothing else. |
| Database.Database.Enqueue | src/delivery/queue.rs:38-82 | On success exactly one row of ours, pending under a fresh identifier and with that envelope, joins the outbox, and its file holds those bytes; on failure none does; all other new rows are others' own. |
| Database.Database.ClaimDue | src/delivery/queue.rs:86-135 | Claims a selection as above and marks exactly those rows as being sent, or claims nothing. |
| Database.Database.MarkMessageFailed | src/delivery/queue.rs:179-218 | Gives the row up or schedules it after its backoff, or changes nothing. |
| Worker.Deliver | src/delivery/worker.rs:68-112 | Hands over the row's envelope and file once if the file is there; while the relay has it only others run statements, and then the one statement run writes back the outcome that belongs to that attempt. |
| Worker.DrainOutbox | src/delivery/worker.rs:41-61 | While others queue mail and change tables: a selection of the due messages is claimed in one statement, each is handed over exactly once, in order, from its own file, and then stands as delivered if the relay took it, as after a failed attempt if not, and as being sent if the write was lost. The pass takes at least one attempt off the work owed per claimed message, less lost writes, plus what new mail is granted; without losses nothing else is left marked as being sent. |
| Worker.RunDeliveryWorker | src/delivery/worker.rs:12-35 | Watched for any number of turns, the worker requeues once and then makes exactly that many passes as above, one after the other, and the relay gets what they hand over and nothing else. The messages claimed are paid for by the work owed at the start, new mail and lost writes; without these two, once more passes began with every retry time come than attempts were owed and claims failed, every message is delivered or failed; with working storage there are no lost writes and no failed claims. |
| Worker.NothingOwedMeansFinished | src/delivery/worker.rs:41-61 | Nothing is owed if and only if every message is delivered or failed. |
| Worker.OthersMove | src/delivery/worker.rs:41-61 | Whatever others do without being a second worker, they leave statuses and attempts of queued messages alone and add only fresh ones. |
| WorkerRuns.WorkerRefinesRuns | src/delivery/worker.rs:12-112 | Any number of lives of the worker, with everybody else queueing, deleting and letting time pass in between and at the same time, is a run of the step system above with the same outbox, the same restarts and the same messages handed over, at the same times and in the same order. |
| WorkerRuns.WorkerIsBounded | src/delivery/queue.rs:86-218 | So over any such lives a message is handed over at most as often as allowed plus once per requeue, and taken at most once plus once per requeue; it is delivered only if it was taken, and failed only after as many hand-overs as allowed. |
| WorkerRuns.WorkerSpacesSends | src/delivery/queue.rs:179-218 | Between any two hand-overs of a message that was not requeued in between, at least the backoff of its recorded attempts passes. |
| WorkerRuns.EventsAreTransmissions | src/delivery/worker.rs:74-92 | Those hand-overs are, one by one, what the relay got: envelope and spooled bytes of a message that is still in the outbox. |
| WorkerRuns.RunIsCounted | src/delivery/worker.rs:68-112 | In every run the account of a message is the tally of the hand-overs, successes and requeues seen from outside. |
| WorkerRuns.TapeIsQuiet | src/delivery/worker.rs:12-35 | A database whose others never act as a worker has a history to which all this applies. |
| Router.GetOrCreateContact | src/contact/mod.rs:34-77 | Whatever others do between its statements, returns the one contact of the pair; only if there was none at first it draws one token and runs one INSERT under the reverse alias which that token makes, and if the pair was still free at that moment that row is the one returned. With working storage and nobody interfering it fails if and only if the pair had no contact and that very reverse alias is taken. |
| Router.AliasRouter.Route | src/smtp/router.rs:45-93 | The verdict is what the tables said at two moments during the call, or a failed lookup; the only statement run is raising the blocked counter, and with working storage it is raised exactly for mail to a disabled alias. |
| Router.AliasRouter.ForwardToMailbox | src/smtp/router.rs:95-150 | Success means exactly these statements were run: a contact if one was missing, the file, the row from the contact's reverse alias to the alias's mailbox with the forwarded bytes, and the counter once; a failure never raises the counter, and leaves the row only if the counter failed. |
| Router.AliasRouter.ReplyToContact | src/smtp/router.rs:152-193 | Success means exactly the file, the row from the alias to the contact's address with the reply bytes, linked to its alias, and the counter once; a failure leaves the row only if the counter failed. |
| Router.AliasRouter.VerifyRecipient | src/smtp/router.rs:197-202 | Accepts only what the tables routed during the call, and rejects with the reason they gave or for a failed lookup. |
| Router.AliasRouter.Handle | src/smtp/router.rs:204-239 | Success means exactly the statements of every recipient in turn, each routed by what the tables said during the call; failure at one recipient means exactly those of the recipients before it, and its own row only if storage failed behind it. With working storage and nobody interfering the result, the tables and the tokens drawn are exactly as foretold. |
| Forecast.ForetoldReason | src/smtp/router.rs:204-239 | What is foretold fails at the first recipient that, with those before it served, the tables refuse, or whose mail names no sender, or whose sender is new to the alias while the very token drawn for it is taken; and never otherwise. |
| Forecast.KnownMailNeverFails | src/smtp/router.rs:95-193 | Envelopes whose recipients are all routed, to contacts or to mailboxes of aliases that know the sender, never fail and draw no token, whatever was drawn before. |
| Server.Conversation.Answer | src/smtp/session.rs:75-181 | One turn of the loop makes the specified transition, writes the specified replies, and runs no statement but those for a recipient asked about or an envelope handed over. |
| Server.HandleSession | src/smtp/session.rs:40-183 | A connection is a replay of its input: each command is the next line, replies and state are those of the log, the rest of the input is untouched, the statements run are those of the commands in turn, and the outbox gained exactly the rows among them besides others' own. With working storage and nobody interfering, every envelope is answered as foretold. |
| EndToEnd.AcceptedMeansQueued | src/smtp/session.rs:141-163 | A 250 to the final dot means that while it was answered the outbox gained exactly one pending row of ours per accepted recipient of the open transaction, in order, whose bytes are the rewrite, for the route the tables gave at the time, of the unstuffed lines the client sent, and each alias was counted once. |
| EndToEnd.RefusedMeansPrefix | src/smtp/router.rs:204-239 | A 451 means that the outbox gained exactly such rows for the recipients before the one that failed, and that one's own only if storage failed behind it. |
| EndToEnd.OnlyRefusedForAReason | src/smtp/session.rs:149-163 | With working storage and nobody interfering, the answer to a payload that was read follows from the tables and the next tokens at that moment: 250, unless, with the recipients before it served, the tables refuse one, or it stands for a mailbox and the message names no sender, or its alias does not know the sender and the very token drawn for the new contact is taken. |
| EndToEnd.KnownMailIsAccepted | src/smtp/session.rs:149-163 | In particular replies to contacts, and mail from senders that the aliases know, are always answered with 250, and no token is drawn for them. |
| EndToEnd.ConnectionQueuesExactly | src/smtp/session.rs:40-183 | From its first to its last byte a connection adds to the outbox exactly the messages listed with its commands, each under an identifier of its own, kept with envelope and bytes; if nobody else queues mail meanwhile, the outbox gains nothing else. |
| EndToEnd.OnlyAcceptedMailIsQueued | src/smtp/session.rs:141-163 | While a command is answered the outbox gains rows of ours only for recipients accepted under the sender of the envelope it hands over, never more than one for each. |
| EndToEnd.ResetQueuesNothing | src/smtp/session.rs:165-169 | After a complete RSET, EHLO or HELO line no command adds a row to the outbox until a MAIL and behind it a RCPT are answered with 250. |
| EndToEnd.NeverARelay | src/smtp/router.rs:49-51 | Nothing is ever queued for a recipient under a domain that is not configured. |
| EndToEnd.ForwardParamsAreClean | src/smtp/router.rs:107-130 | With a one-line prefix and default domain, nothing the sender wrote can add a line to the header that a forward inserts. |
| EndToEnd.MailboxReads | src/smtp/router.rs:107-145 | For every forward that a run queued, the mailbox reads the sender's body byte for byte, answers that lead to the reverse alias, and all other fields as they were sent. |
| EndToEnd.ForwardInFull | src/smtp/router.rs:107-145 | Every forward that a run queued, byte by byte: the four lines with quoted name and sender, reverse alias and alias, the remaining fields, an empty line, the body. |
| EndToEnd.EnvelopeSenderIsForwarded | src/smtp/router.rs:103-145 | For every queued forward whose envelope sender is an address, the contact stands under that sender's lookup key, and the forward is from its reverse alias and names that sender, whatever the header block holds. |
| EndToEnd.ContactReads | src/smtp/router.rs:152-193 | For every reply that a run queued, the contact reads the alias as sender and itself as recipient, none of the fields that name the mailbox, all others as they were, and the body byte for byte; nothing inserted can break a line. |
| EndToEnd.ReplyInFull | src/smtp/router.rs:152-193 | Every reply that a run queued, byte by byte. |
| EndToEnd.ForwardThenReplyComesHome | src/smtp/router.rs:45-193 | For every forward that a run queued and every later moment at which the alias exists, mail to its envelope sender is routed to a reply as the alias to the contact if and only if the configuration allows it, it comes from the mailbox that got the forward, and the alias is enabled; with such a configuration everybody else is refused. |
| EndToEnd.ReplyForgetsTheForward | src/smtp/rewrite.rs:105-160 | A reply to a forward that a run queued goes out with the bytes it would have on the original, exactly when `Absorbs` holds of the original. |

## Left out

- Sockets, TLS, DNS, DKIM signing and the relay client (src/smtp/server.rs, src/delivery/relay.rs): the input is a string, replies are codes with their continuation mark, and a send succeeds or fails arbitrarily. Reply wording is not modelled.
- I/O errors on the client connection and command lines that are not UTF-8, both of which end `handle_session` early.
- SQLite and sqlx: statements are atomic; a failing one changes nothing. A statement that is applied but reported as failed is not modelled.
- Text timestamps: the clock is an integer that never runs backwards; `created_at`, `delivered_at`, `last_used_at` and `last_error` are not kept.
- Unicode: one character is one byte, lower-casing and white space are ASCII, and `from_utf8_lossy` is the identity.
- Identifiers: fresh by construction, and a spool path is the identifier of its row.
- Reading a spool file that exists always succeeds; the worker's missing-file branch stands for every read error.
- Mailbox default flags, notes, list queries, the web administration, authentication, configuration loading and tracing would add only easy members. Creating, toggling and deleting mailboxes and aliases are steps of `Tables.Change`.
- `max_attempts` and the poll interval are fixed within a run.
- Worker.RunDeliveryWorker: watches any finite number of turns of the endless loop; crashes in the middle of a pass are in `DeliveryRuns` only, while `WorkerRuns` lets the worker stop and start again between passes.
- Worker.DrainOutbox: there is one worker, as in the source; others may run every statement but the worker's own.
- Router.AliasRouter.Handle: that it must succeed is promised for working storage and nobody interfering; with interference, only what it did is.
- WorkerRuns.WorkerRefinesRuns: starts from an empty outbox and spool, as a new installation does.
- EndToEnd.MailboxReads: the message is taken to start with a field.
- EndToEnd.ContactReads: the message is taken to start with a field.
- EndToEnd.ForwardThenReplyComesHome: the reverse-alias settings are taken to stay the same, so contacts made under earlier settings are not part of a history.
- A file that another connection has spooled but not yet inserted can be inserted by anybody else's INSERT on the tape; with UUIDs nobody would. The model allows more than the source does there.
