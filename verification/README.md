# A verified model of the aioproxmox client

`aioproxmox` is an asyncio client for the Proxmox VE API. One client object is shared by many concurrent
requests: it keeps a list of the cluster's hosts and the one in use, renews a ticket that ages, walks to
another host when its own stops answering, and repeats what failed. This project models that protocol and
the library's other small algorithms in Dafny, and proves what they promise.

**The protocol.** `Protocol` is a state machine. Every caller is a task with a program counter; one atomic
step takes it from the await it is suspended in to the next. What the network answers (an HTTP status, a
failed connection, another client error, any other exception or a cancellation), when, and whose turn is next
are all open; a clock only moves forward. A run is any finite sequence of such steps. `HostSafety`, `Walks`,
`Growing`, `Moves`, `Burst`, `Renewals`, `Recovery`, `Destinations`, `Credentials`, `Challenges`, `Budget` and
`Outcomes` prove properties of all runs.

**The code.** `Client` holds the two objects as the library writes them, with mutable fields, loops and early
returns. At each await its methods let other callers take any steps, and each method is proved to be one task
of the protocol. `FieldsAgree`, `CallIsCheap` and `RepliesAreHeeded` carry results back to the fields.

**The rest.** `PrivilegeTable`, `Privileges`, `Substitution`, `StrayPlaceholders`, `PrivilegeRoundTrip` and `CheckTree` are the
privilege compiler and lookup; `Numbers` and `Disks` read SMART data; `Guest` adds up disk usage; `Schema`
flattens the API tree; `ClusterResources` indexes, searches and sums the resource list; `Permissions` is ACL
inheritance. `Wrappers`, `Strings`, `Sorting` and `Sums` are helpers.

## What the code does not do as described

- `failover` is documented to return whether the call moved to a working host. It also returns True in two other
  cases. First, asking nobody, when `from_host` is not the host in use; that host may be a candidate of a walk that
  then gives up (`Moves.TrueOnASilentHost`). Second, when the list is replaced during the walk and the walk comes by
  the host it left, which answers (`Walks.TrueWithoutMoving`, and `Walks.WhenHomeAnswers` for exactly when). As long
  as no list is replaced inside `failover` there is no other case, for any caller (`Walks.MovedIffAnswered`).
- One move per burst holds for failed requests (`Burst.MovesAtMostOnce`). Failed renewals call `failover` without
  `from_host`, and each of them moves on (`Renewals.RenewalsWalkPastAnsweringHosts`). One of them beside a single
  failed request is enough (`Renewals.OneBlindCallerIsEnough`).
- `learn_hosts` does not take the switch lock. Inside `failover`, `replace=True` can leave the index beyond the
  list (`HostSafety.ReplaceCanBreakTheClient`) or make a walk raise that found a host that answers;
  `Walks.ReplaceDuringWalk` says for every ending exactly when. Adding hosts during a walk makes it skip some
  exactly if it did not start from the first host and candidates were left (`Growing.WhenHostsAreSkipped`), so that
  False does not mean that all were asked (`Growing.FalseWithoutAskingAll`).
- A TFA challenge is in store as a fresh ticket from the moment it arrives, until the code or some other login is
  answered with a ticket. Every request that begins within `renew_age` meanwhile is sent with it, and a refused code
  leaves it there
  (`Challenges.FailedCodeLeavesTheChallenge`, `Challenges.WhoCarriesAChallenge`).
- Filling in the names one after the other is filling them all at once, in every order, if and only if no value
  reads like the placeholder of another name (`StrayPlaceholders.OrdersAgreeIffQuiet`).
- `update` makes a path that occurs again further down lose the methods it had (`Schema.WhichMethodsSurvive`).
- `smart_text_attributes` matches labels whole, but the SAS label with a colon of its own by prefix
  (`Disks.LabelsAreMatchedWhole`).
- A guest's total is documented to need a total from every contributing filesystem; the code asks for one per
  device (`Guest.OneTotalPerDeviceIsEnough`).
- `has_permission` looks at the path, its parent and the root. On paths of three or more parts that is less
  than inheritance (`Permissions.LongPathsMissAnAncestor`).
- `docs/schema.md` counts 39 routes with a check and `script/generate_privileges.py` 43; the table has 38.

## Model

| member | source | states |
|---|---|---|
| HostSafety.ReachableSafe | aioproxmox/__init__.py:279-410 | in every state of every run that uses `replace=True` only while the switch lock is free: hosts are distinct, the configured one is first, the index is in range, both URLs name the host in use (for token auth the second is unset before the first switch), and the lock is held exactly by the task inside `failover` |
| HostSafety.StaysSafe | aioproxmox/__init__.py:279-410 | the same from any safe state on |
| HostSafety.LearnKeepsHost | aioproxmox/__init__.py:279-302 | learning keeps the host in use and the configured host first, and the new list holds exactly the kept hosts, the named ones and the host in use; adding does not move the index |
| HostSafety.KeptExtends | aioproxmox/__init__.py:295-299 | merging appends without duplicates exactly the named hosts that are not empty |
| HostSafety.OneMoreEntry | aioproxmox/__init__.py:296-299 | entries are merged in their order: one more is appended if it is a text, not empty and not there yet, and dropped otherwise |
| HostSafety.CurrentComesLast | aioproxmox/__init__.py:300-302 | a host in use that is not among the merged ones is appended, and nothing else is |
| Walks.VerdictIsJustified | aioproxmox/__init__.py:336-410 | for any caller and network, with the list unchanged: if the caller was on another host `failover` is True at once; otherwise it is True if and only if a host other than the first answered this call's own probe, and the client is on the first such host in cyclic order with all before it silent; False means the client is where it was, because that host answered or all others were silent; it raises if and only if a probe was torn down |
| Walks.MovedIffAnswered | aioproxmox/__init__.py:384-410 | as long as no list is replaced inside, however many hosts are added: the call moved the client if and only if another host than the one it was on answered its own probe, True comes without a move if and only if `from_host` named another host when it got the lock, and it raises if and only if a probe was torn down |
| Walks.TrueMeansAnswered | aioproxmox/__init__.py:384-408 | whatever is learnt or replaced meanwhile: True, unless `from_host` named another host, means that the host in use answered this call's own probe |
| Walks.TrueWithoutMoving | aioproxmox/__init__.py:295-408 | for any three hosts a run in which a list replaced during a walk makes `failover` return True with the client on the host it left, and no `from_host` |
| Walks.WhenHomeAnswers | aioproxmox/__init__.py:295-408 | after one replacement during a walk, the candidate that answers is the host the walk came from if and only if it was chosen from the fresh list and its place there, start plus offset, is that host's |
| Walks.StayEnds | aioproxmox/__init__.py:384-410 | however the list changes meanwhile: a candidate that answers is kept and True is returned if and only if the first index is still within the list; a walk that gives up goes back to that index or raises |
| Walks.ReplaceDuringWalk | aioproxmox/__init__.py:295-410 | one `replace=True` at any point inside `failover`: if nobody answers, the client is back on the host it left if and only if the fresh list has that host at its old place, and otherwise False or an IndexError by whether the old index is within the list; if a candidate answers it is kept - it may be the host the walk left - and True is returned if and only if the old index is within the list, else IndexError; if the first host answers the client stays on it |
| HostSafety.ReplaceCanBreakTheClient | aioproxmox/__init__.py:331-334 | for any two hosts a run exists that ends with an index beyond the list and nobody in `failover` |
| HostSafety.AppendDuringWalk | aioproxmox/__init__.py:398-400 | after hosts were added during a walk the next candidate is the intended one if and only if nothing new was added or the walk has not wrapped around |
| Growing.WhenHostsAreSkipped | aioproxmox/__init__.py:398-399 | hosts added during a walk make it pass by a host of the old list if and only if it did not start from the first host and candidates were left |
| Growing.GrownWalk | aioproxmox/__init__.py:295-408 | the candidates of a run whose list grew once during a walk are those of that statement |
| Growing.FalseWithoutAskingAll | aioproxmox/__init__.py:398-410 | for any four hosts a run in which `failover` returns False and has not asked the first host |
| Moves.MovesOnlyToAnsweringHosts | aioproxmox/__init__.py:336-410 | on runs that replace the list only while nobody is inside `failover`, with any callers: the host the client is on, or during a walk the host it returns to, is another than before only if that very host answered a probe in between or a probe of that very host ended in an exception that is not caught |
| Moves.SingleCaller | aioproxmox/__init__.py:412-448 | with one caller, hosts learnt at any time and replaced outside `failover`: a call that did not end in such an exception leaves the client where it was or on a host that answered one of this call's probes |
| Moves.AbortedProbe | aioproxmox/__init__.py:348-355 | an exception that is not caught ends the call at once, with the client on the candidate being asked |
| Moves.TrueWithoutAsking | aioproxmox/__init__.py:386-391 | `failover` returns True at once, having sent nothing, if and only if `from_host` names another host than the one in use |
| Moves.TrueOnASilentHost | aioproxmox/__init__.py:384-448 | a run in which no host ever answers and a request is nevertheless told True and repeated on the host the walk left |
| Burst.MovesAtMostOnce | aioproxmox/__init__.py:384-448 | however a burst interleaves, the host the client returns to or is on changes at most once, from the first host to the first answering one after it in cyclic order, and not at all if that host answers or nobody does |
| Burst.FirstAnswerMeaning | aioproxmox/__init__.py:398-408 | the walk's search stops at an answering host all of whose predecessors in walk order are silent, or every host of the walk is silent |
| Burst.WalkVisitsEachOnce | aioproxmox/__init__.py:398-399 | offsets 1 to n - 1 modulo n pass every host but the start exactly once |
| Burst.BurstStays | aioproxmox/__init__.py:384-410 | the invariant of a burst: the task inside `failover` has found every earlier candidate silent |
| Burst.BurstAcquire | aioproxmox/__init__.py:386-448 | after the move, a request of the burst that gets the lock sends its repeat to the new host at once and no probe |
| Burst.BurstRequestsAreRepeated | aioproxmox/__init__.py:445-448 | every request of the burst is repeated on the one target if there is one, and fails with its connection error if there is none; one that does neither is on record as cancelled, or its probe as torn down |
| Renewals.RenewalsEachMove | aioproxmox/__init__.py:398-435 | any number of waiting renewals, or of consumers that ask for the same, can each move the client one host on while every probe is answered |
| Renewals.RenewalsWalkPastAnsweringHosts | aioproxmox/__init__.py:428-435 | for any password client with another host known and any k, a run exists in which k failed renewals move it k steps around the cluster and every probe is answered |
| Renewals.OneBlindCallerIsEnough | aioproxmox/__init__.py:384-448 | from every state with the lock free, two hosts or more, one failed renewal waiting and one other caller, such as a request that failed on the host in use: a run exists that moves the client twice, and with three hosts all but the first answer in it |
| Recovery.FirstAttemptIsHeeded | aioproxmox/__init__.py:436-448 | on every run: a first attempt that fails to connect makes the call wait for the switch lock with its own host as `from_host` whenever another host is known, and raises otherwise; a 401 posts a login with the password, except with a token; 200 and 201 return, every other status raises as itself, every other exception passes |
| Recovery.RepeatIsHeeded | aioproxmox/__init__.py:444-448 | what the repeat is answered is the end of the call: success, that status, or that exception |
| Recovery.LoginIsHeeded | aioproxmox/__init__.py:94-179 | on every run: a refused renewal is followed in the same step by a login with the stored password, any other refusal raises; a first renewal that fails to connect waits for the switch lock when another host is known; a request for a code is answered with the ticket just received; a completed login goes on with what it was for, the request, its repeat or the return |
| Recovery.CallBegins | aioproxmox/__init__.py:158-168 | a call posts a renewal with its ticket if and only if the ticket is 3600 seconds old or more, and otherwise sends its request to the host in use with what is in store |
| Recovery.VerdictIsHeeded | aioproxmox/__init__.py:428-448 | after True a failed request is repeated and a failed renewal checked again, with a second renewal if one is due; after False both raise their connection error |
| Destinations.EverythingGoesToTheHostInUse | aioproxmox/__init__.py:105-132 | on every run and for both kinds of authentication, everything a step sends - attempts, repeats, probes, renewals, logins, TFA steps - goes to the host in use after that step, as long as the index is within the list |
| Destinations.TokensDoNotLogIn | aioproxmox/__init__.py:58-59 | with a token nothing but requests and probes is ever sent |
| Credentials.CredentialsBelongTogether | aioproxmox/__init__.py:94-483 | on every run with well-formed login answers: each ticket travels with the CSRF token of its own login, a first attempt goes to the host recorded as `host_before`, a TFA step sends the ticket its own call just received, a renewal sends the stored ticket or the password, and no first attempt is sent with a ticket that was `renew_age` old when its check began |
| Credentials.BirthNeverDecreases | aioproxmox/__init__.py:118-167 | the issue time never goes back and never lies ahead of the clock |
| Credentials.StoreKeepsPairs | aioproxmox/__init__.py:118-147 | one answer leaves a pair of tokens issued together if and only if it does not carry a new ticket without a token |
| Challenges.LastTicketIsSent | aioproxmox/__init__.py:94-156 | on every run whatever, the stored ticket is that of the last answer with a ticket, and each request, probe, renewal and TFA step sends what was stored then (or the password) |
| Challenges.WhoCarriesAChallenge | aioproxmox/__init__.py:118-156 | where no ticket is issued twice: the stored ticket is a TFA challenge if and only if the last answer with a ticket was a first step that asks for a code, and a request or probe carries a challenge if and only if that was so when it was sent |
| Challenges.FailedCodeLeavesTheChallenge | aioproxmox/__init__.py:118-173 | for every kind of login, whoever else runs, as long as neither the code nor any other login is answered with a grant: a request that begins is sent with the challenge if and only if less than `renew_age` passed since it arrived, and otherwise sends it as a password |
| Budget.RequestBudget | aioproxmox/__init__.py:428-448 | the invariant behind the counts: what a task has sent plus what its program counter can still send is within budget, whatever others do |
| Budget.RequestCosts | aioproxmox/__init__.py:94-448 | with at most n hosts known, one `request` sends at most 2 data requests, 2n - 1 probes (none when only one host is known) and 10 ticket posts, 8 when less than `renew_age` passes |
| Budget.CallCosts | aioproxmox/__init__.py:412-448 | the same for a call that begins anywhere in a run, timed from its own beginning |
| Budget.RequestTerminates | aioproxmox/__init__.py:412-448 | one `request` is resumed at most 2n + 14 times under any schedule |
| Budget.ConsumerCosts | aioproxmox/__init__.py:357-410 | a consumer's own `failover` sends at most n probes, no data request and no ticket post, and takes at most n + 1 steps under any schedule |
| Outcomes.EveryOutcomeIsExplained | aioproxmox/__init__.py:336-448 | on runs that replace the list only while nobody is inside `failover`, every result and error of a `request` is backed by replies to that very call: success by a 200 or 201, an API error by that status (a 401 with password auth only from the repeated request), a connection error by a failed attempt or renewal, an authentication error by a refused login with the password or its TFA step, any other exception by one of its own, a login answer the code stumbles over or a cancelled wait; it repeats only after a failed connection, or after a 401 followed by a completed login, and never raises for a stale index |
| Client.ProxmoxVe.UseHost | aioproxmox/__init__.py:331-334 | index first, then both URLs; out of range only the index is written |
| Client.ProxmoxVe.Merge | aioproxmox/__init__.py:295-302 | the loop of `learn_hosts` computes the list and index of the specification, or raises before any write |
| Client.ProxmoxVe.LearnHosts | aioproxmox/__init__.py:279-302 | it is one atomic step of the protocol |
| Client.ProxmoxVe.Answers | aioproxmox/__init__.py:336-355 | it hears yes, no or an exception exactly as the step of the protocol does |
| Client.ProxmoxVe.Failover | aioproxmox/__init__.py:357-410 | the whole method, at whatever interleaving, is the protocol's path from waiting for the lock to the verdict |
| Client.ProxmoxVe.Walk | aioproxmox/__init__.py:398-410 | the probing loop, with its bound fixed at the start and its modulus read anew, is the protocol's walk |
| Client.ProxmoxVe.GetNewTokens | aioproxmox/__init__.py:94-147 | both posts and their writes are the protocol's login, and the fault returned is what the caller goes on with |
| Client.ProxmoxVe.Store | aioproxmox/__init__.py:118-120 | the writes of an answer in their order, up to the key that is missing |
| Client.ProxmoxVe.CheckAndRefresh | aioproxmox/__init__.py:158-173 | renewal when the ticket is due, the password when the renewal is refused, nothing otherwise |
| Client.ProxmoxVe.Relogin | aioproxmox/__init__.py:175-179 | a login with the stored password |
| Client.ProxmoxVe.Prepare | aioproxmox/__init__.py:428-435 | the check, with one failover and one more check after a failed connection |
| Client.ProxmoxVe.Attempt | aioproxmox/__init__.py:436-448 | the first attempt and what a 401 or a failed connection lead to |
| Client.ProxmoxVe.Request | aioproxmox/__init__.py:412-448 | the code runs as one task of the protocol from its first step to its last and returns that task's outcome |
| Client.ProxmoxVe.ConsumerFailover | aioproxmox/__init__.py:357-410 | the same for `failover` called with a consumer's own arguments |
| Client.ProxmoxVe.FieldsAgree | aioproxmox/__init__.py:331-334 | between steps of a run that replaces lists only outside `failover`, the fields name one host |
| Client.ProxmoxVe.CallIsCheap | aioproxmox/__init__.py:412-448 | the counts of `RequestCosts`, the eight posts of a short call included, for every call made with `Request` |
| Client.ProxmoxVe.RepliesAreHeeded | aioproxmox/__init__.py:412-448 | the code does about each reply what the `Recovery` statements say |
| Substitution.SequentialIsSimultaneous | aioproxmox/privileges.py:64-74 | replacing the names one after the other equals filling all placeholders at once, for every path whose only opening braces are its placeholders, unless a value reads like the placeholder of a name still to come |
| Substitution.OrderDoesNotMatter | aioproxmox/privileges.py:69-70 | where no value reads like the placeholder of another name, any order of the same names gives the same path |
| Substitution.BraceFreeIsQuiet | aioproxmox/privileges.py:69-70 | values without an opening brace are such values |
| StrayPlaceholders.OrdersAgreeIffQuiet | aioproxmox/privileges.py:69-70 | sequential and simultaneous filling agree on every such path in every order if and only if no value contains the placeholder of another name or ends in the beginning of one, names that stand for their own placeholder aside |
| StrayPlaceholders.SomeOrderDiffers | aioproxmox/privileges.py:69-70 | for every value that does, a path and an order for which they differ |
| StrayPlaceholders.BracesInValuesMatter | aioproxmox/privileges.py:69-70 | for any two brace-free names, a value that spells the other's placeholder is filled in turn or not depending on the order |
| Substitution.ReplaceFillsOne | aioproxmox/privileges.py:70 | one `str.replace` of `{name}` fills exactly the placeholders of that name, where no other character begins such text |
| Privileges.SubstituteValues | aioproxmox/privileges.py:64-74 | the two loops replace in every alternative's path, in order, and keep its privileges and whether one is enough |
| Privileges.SubstituteKeepsDemands | aioproxmox/privileges.py:71-73 | only the path of an alternative is filled in |
| Privileges.PrivilegesFor | aioproxmox/privileges.py:101-125 | the loops return the check of the first row that fits, filled with what its segments bound |
| Privileges.BindIffFits | aioproxmox/privileges.py:117-123 | the inner loop completes if and only if the path agrees with the template at every segment |
| Privileges.BindReadsBack | aioproxmox/privileges.py:116-120 | on a filled-in template the loop binds each placeholder to the value it was filled with |
| Privileges.PathIsBound | aioproxmox/privileges.py:116-120 | what the path says is bound whatever else was given under that name, and what was given under other names stays |
| Privileges.OuterSlashes | aioproxmox/privileges.py:109 | slashes around a path are not part of it |
| Privileges.SlashesAroundTemplates | aioproxmox/privileges.py:97 | nor around a template |
| Privileges.CaseDoesNotMatter | aioproxmox/privileges.py:97-108 | the method is looked up in upper case, letter by letter |
| Privileges.PathIsRead | aioproxmox/privileges.py:109-117 | strip and split read a template filled with slash-free values back segment by segment |
| Privileges.TemplateIsRead | aioproxmox/privileges.py:113 | the text of a template splits into its segments |
| PrivilegeTable.AtMostOneRowFits | aioproxmox/_privilege_data.py:14-129 | for every method and path at most one row of the table fits |
| PrivilegeRoundTrip.TableOrderDoesNotMatter | aioproxmox/privileges.py:110-125 | any order of the rows gives every lookup the same answer |
| PrivilegeRoundTrip.TextsTellSegments | aioproxmox/_privilege_data.py:14-129 | two templates with the same text are the same template |
| PrivilegeRoundTrip.TemplateIsFound | aioproxmox/privileges.py:87-98 | by its template every row of the table is found |
| PrivilegeRoundTrip.BothLookupsAgree | aioproxmox/privileges.py:64-125 | for every row and all slash-free values that do not read like placeholders, brace-free ones among them: the lookup by template finds the row, the lookup by the filled-in path equals it with those values substituted, and alternative by alternative that is the row's ACL path with its holes filled all at once, and the row's privileges and flag |
| CheckTree.FindAlternatives | script/generate_privileges.py:49-73 | the recursion with its accumulator computes the list of alternatives, or raises where a node is not supported |
| CheckTree.FlatteningKeepsMeaning | script/generate_privileges.py:49-73 | for every tree that is not refused and every ACL, the tree holds if and only if one of its alternatives is satisfied |
| CheckTree.AlternativesAreLeaves | script/generate_privileges.py:61-73 | the alternatives are the leaves, each once and in order; the tree is refused if and only if some node is empty or of another kind |
| CheckTree.NeverReadAsNoCheck | aioproxmox/privileges.py:97-98 | with no empty `or` the list is never empty, so the lookup never reads it as no check |
| Numbers.LeadingIntReadsBack | aioproxmox/model/disks.py:123-138 | every number, printed with or without thousands separators, after any space and before anything that does not go on with a digit, is read back |
| Numbers.LeadingZeros | aioproxmox/model/disks.py:137-138 | zeros in front of a number change nothing |
| Numbers.UnreadableIsNone | aioproxmox/model/disks.py:137-138 | a text in which no digit comes first, commas and space aside, has no number |
| Numbers.ThousandsAreDecimal | aioproxmox/model/disks.py:137 | dropping the separators of a printed number gives its plain digits |
| Numbers.ReadsTheSameStripped | aioproxmox/model/disks.py:115-137 | stripping a value and dropping its commas beforehand does not change what is read |
| Disks.FromAttributes | aioproxmox/model/disks.py:152-177 | every field is the reading of the last attribute of its id that has one |
| Disks.FieldsByNumber | aioproxmox/model/disks.py:69-177 | one attribute fills in the field of its number (9, 12, 174, 190, 194, 231) and no other, the life left from the normalised value and all else raw; without a readable id it fills in nothing |
| Disks.ValuesAreRead | aioproxmox/model/disks.py:132-138 | whole numbers are read as they are, texts by the number in front, flags and anything else not at all |
| Disks.TextAttributes | aioproxmox/model/disks.py:88-120 | the loop yields the attributes of the lines in order |
| Disks.DiskSummary | aioproxmox/model/disks.py:199-205 | the attributes decide if there are any, otherwise the text |
| Disks.TextIsRead | aioproxmox/model/disks.py:88-177 | for every text and every id a text can carry, the summary is the last line whose label is of that id and whose value begins with a number |
| Disks.OtherLinesDoNotMatter | aioproxmox/model/disks.py:96-112 | a line without a number for such an id, inserted anywhere in a text, does not change its reading |
| Disks.LabelsAreMatchedWhole | aioproxmox/model/disks.py:98-112 | a line `label: value` is read if and only if its whole label is known for that id; a line that begins with the SAS label that has a colon of its own is read as hours instead, by whatever follows that label |
| Disks.SensorsAreNotTheTemperature | aioproxmox/model/disks.py:91-92 | `Temperature Sensor 1` is never a reading |
| Disks.NvmeLabels | aioproxmox/model/disks.py:76-80 | the three NVMe labels and their numbers |
| Disks.SasLabels | aioproxmox/model/disks.py:81-85 | the three SAS labels and their numbers |
| Disks.OtherLabels | aioproxmox/model/disks.py:103-112 | any other label is not read |
| Disks.TextHasThreeReadings | aioproxmox/model/disks.py:76-86 | a text says nothing about any number but 9, 12 and 194 |
| Disks.SpaceDoesNotMatter | aioproxmox/model/disks.py:97-115 | space around a line, a label or a value does not matter |
| Guest.GuestDiskUsage | aioproxmox/model/guest.py:37-68 | the two sums over devices, the total only where both dictionaries are about the same devices |
| Guest.UsedByMeaning | aioproxmox/model/guest.py:50-56 | a device is in the dictionary if and only if a filesystem on it contributes, with the largest used figure reported for it |
| Guest.TotalByMeaning | aioproxmox/model/guest.py:57-60 | the same for totals |
| Guest.OrderAndRepeatsDoNotMatter | aioproxmox/model/guest.py:42-43 | reordering or repeating filesystems changes neither figure |
| Guest.WhenATotalIsGiven | aioproxmox/model/guest.py:61-68 | a total is given if and only if there is a contributing device and each has reported a total at least once |
| Guest.UsedWithinTotal | aioproxmox/model/guest.py:43-45 | where every contributing filesystem reports a total no smaller than its used figure, so do the sums |
| Guest.WithoutDiskIsLeftOut | aioproxmox/model/guest.py:50-51 | a filesystem without a disk or a used figure changes nothing |
| Guest.OneMoreMount | aioproxmox/model/guest.py:29-60 | every other one counts for the device its first disk names, or else under its own name, at the larger of its figures and those before |
| Guest.MountsOfOneDevice | aioproxmox/model/guest.py:40-42 | two mounts of one device count once, at the larger figure; two devices add up |
| Guest.OneTotalPerDeviceIsEnough | aioproxmox/model/guest.py:63-67 | two mounts of one device, one without a total: a total is given and is less than used |
| Schema.Flatten | script/refresh_pve_api.py:39-50 | the recursion with its dictionary computes the specification |
| Schema.FlatIsOwn | script/refresh_pve_api.py:39-50 | with distinct paths the result is what the nodes of the tree say one by one |
| Schema.FlattenKeepsEveryPair | script/refresh_pve_api.py:39-50 | with distinct paths, a path has a method with given parameters and check if and only if a node of the tree says so |
| Schema.PairCount | script/refresh_pve_api.py:39-50 | and the number of pairs is the sum over the nodes |
| Schema.FlatPaths | script/refresh_pve_api.py:39-50 | in every tree, a path is written out if and only if a node stands for it |
| Schema.WhichMethodsSurvive | script/refresh_pve_api.py:39-50 | in every tree, repeated paths included, a path has a method if and only if the last node of the list with that path strictly below it brings it, or a node after that one has it |
| Schema.WhenAMethodIsLost | script/refresh_pve_api.py:45-49 | a method that one node of a list has for its path, and no other, is lost if and only if that node or a later one has the path again strictly below it |
| Schema.ChildrenReplace | script/refresh_pve_api.py:49 | without distinct paths `update` takes a parent's methods away |
| ClusterResources.ClusterCache | aioproxmox/helpers.py:33-53 | the one pass that fills four dictionaries computes the index |
| ClusterResources.IndexHoldsTheLast | aioproxmox/helpers.py:42-51 | under each key the index holds the last resource of that key, and nothing if there is none |
| ClusterResources.FiledByItsFields | aioproxmox/helpers.py:42-53 | what stands under a node's name, a vmid of either kind, or `node:storage` is the last entry of that kind that carries it |
| ClusterResources.StorageKeysDoNotCollide | aioproxmox/helpers.py:51 | `node:storage` tells storages apart for node names without a colon |
| ClusterResources.FindNode | aioproxmox/helpers.py:17-30 | the loop with its early return is the first-match search |
| ClusterResources.ScanFindsTheFirst | aioproxmox/helpers.py:24-30 | the search names the node of the first guest with that vmid, or there is none |
| ClusterResources.IndexAndScanAgree | aioproxmox/helpers.py:17-53 | where a vmid is used once across both kinds of guests, index and search name the same node |
| ClusterResources.WhenIndexAndScanAgree | aioproxmox/helpers.py:17-53 | however often a vmid is used, the search names the node of the first guest and the index that of the last VM or, without one, the last container, so they agree if and only if these nodes are the same |
| ClusterResources.BothFindAGuest | aioproxmox/helpers.py:17-53 | both guests exist if any guest has that vmid; if none has, both lookups say so |
| ClusterResources.DuplicatesDisagree | aioproxmox/helpers.py:17-53 | two VMs of one vmid on different nodes: the search takes the first and the index the last |
| ClusterResources.Cluster.Resources | aioproxmox/endpoints.py:724-734 | list and index are written together, so the index is always that of the list |
| ClusterResources.Cluster.Locate | aioproxmox/endpoints.py:213-233 | the lookup of `current`: the list at hand, then one fetch; the node named is that of the list left behind, and the index still matches it |
| ClusterResources.Summarize | aioproxmox/model/summary.py:113-158 | the loop and its lists compute node and guest counts, the sorted names of offline nodes, and figures that add up: the CPU times all cores is the sum of `cpu * maxcpu`, and the memory figures are the sums of `mem` and `maxmem`, of the nodes online |
| ClusterResources.OneMoreOnlineNode | aioproxmox/model/summary.py:132-146 | one more online node adds its cores, its use times its cores, and both its memory figures |
| ClusterResources.OneMoreOther | aioproxmox/model/summary.py:116-117 | anything else adds nothing |
| ClusterResources.SummaryAddsUp | aioproxmox/model/summary.py:132-158 | the figures of the specification are those sums |
| ClusterResources.NodesAreCounted | aioproxmox/model/summary.py:116-149 | nodes in total, online and not, are counted by entry |
| ClusterResources.GuestsAreCounted | aioproxmox/model/summary.py:118-127 | guests in total and running are counted by entry, templates left out |
| ClusterResources.OfflineNames | aioproxmox/model/summary.py:150 | the names are sorted, one for each node that is not online, and exactly theirs |
| ClusterResources.SummaryIsBounded | aioproxmox/model/summary.py:113-158 | online and offline add up to all nodes, the CPU lies within any bounds that hold for the online nodes with cores, and memory used is within the total where it is on each node |
| ClusterResources.CpuIsAnAverage | aioproxmox/model/summary.py:132-155 | the weighted CPU lies between the least and the most loaded node with cores, and is absent only if no node has any |
| Permissions.Compile | aioproxmox/model/__init__.py:35-46 | the loop keeps the privileges with value 1 and no empty entries |
| Permissions.CompiledGrants | aioproxmox/model/__init__.py:35-46 | the compiled map grants a privilege on a path if and only if the answer gives it the value 1 |
| Permissions.HasPermission | aioproxmox/model/__init__.py:48-61 | the loop is the question on path, parent and root |
| Permissions.ShortPathsInherit | aioproxmox/model/__init__.py:48-61 | on paths of one or two parts, with no entry for the empty path, the answer is full inheritance |
| Permissions.LongPathsMissAnAncestor | aioproxmox/model/__init__.py:50-54 | on every path of three or more parts, a grant on its topmost part is inherited and not seen |

## Left out

- HTTP, TLS, JSON, aiohttp sessions, headers other than the credentials, and message texts: a call is answered by an outcome, and exceptions while decoding count as other exceptions.
- Host strings and the port: hosts are opaque texts and a URL is a constructor that is injective in the host.
- The user's TFA code and its type: only the two-step exchange and the ticket in it are modelled.
- The contents of capabilities: an answer with bad ones raises, as the code does.
- `learn_hosts_from_cluster`: only the `learn_hosts` it ends in.
- The awaits of one exchange are one await: that a context manager may suspend again when it is left, after the writes of a login, is not modelled.
- The clock stands still within one atomic step, and starts at zero or later, as `time.monotonic` does.
- Client.ProxmoxVe.Await: other callers run as tasks of the protocol, not as further activations of these methods; `fate` says which steps they take and what the reply is.
- Client.ProxmoxVe.Request: `request` is split over `Prepare`, `Proceed`, `Attempt` and `RequestAgain`, `_get_new_tokens` over `GetNewTokens`, `ReadRest` and `AnswerChallenge`, and exceptions are return values.
- HostSafety.ReachableSafe: needs `replace=True` to keep out of walks, since the claim fails otherwise (see above).
- Burst.MovesAtMostOnce: a fixed set of hosts answers, no host is learnt, nobody calls `failover` directly, no login fails to connect and no probe of a candidate is torn down during the burst; `Walks` and `Moves` cover those calls one by one, and renewals that fail are the subject of `Renewals`.
- Walks.VerdictIsJustified: the list stays as it was; `MovedIffAnswered`, `TrueMeansAnswered`, `StayEnds` and `ReplaceDuringWalk` say what holds when it does not.
- Challenges.FailedCodeLeavesTheChallenge: stops at the next login that is answered; from there on `WhoCarriesAChallenge` says whose ticket is sent.
- Moves.MovesOnlyToAnsweringHosts: like `Outcomes.EveryOutcomeIsExplained`, needs replacements kept out of `failover`, since a walk that gives up after one can end on a host nobody heard from, or raise.
- Challenges.WhoCarriesAChallenge: needs tickets that are never issued twice, since a challenge is told from a ticket by where it came from.
- Credentials.CredentialsBelongTogether: login answers that carry a ticket and no CSRF token are excluded; `StoreKeepsPairs` says what they do.
- Schema.FlattenKeepsEveryPair: entries are compared only where paths are distinct; for repeated paths `WhichMethodsSurvive` speaks of methods, not of their entries.
- Privileges.PrivilegesFor: `upper` and the other text operations are those of ASCII; templates are kept as segments, and `TemplateText` is their text.
- Disks.FromAttributes: white space and digits are the ASCII ones, where Python's `strip` and `\d` take more.
- CheckTree.FindAlternatives: `perm` leaves without a path or privileges, and other extra words after them, are not interpreted.
- Guest.GuestDiskUsage: a `dev` that is not text is taken as its text.
- ClusterResources.Summarize: CPU is a real number, without rounding.
- ClusterResources.Cluster.Locate: the status request that follows the lookup is not part of it.
- `script/routes.py`, `script/live_test.py`, the endpoints' path strings, `vzdump`, health, storage, snapshot and certificate helpers: single filters or texts.
