# Proofs about the IO-Homecontrol hub

A Dafny model of the parts of the `home_io_control` component whose correctness does not show in any single function:
counters that must survive power loss, wait loops against an unreliable radio, a queue that rewrites itself, a
device-role state machine with timers, and a firmware update with one irreversible step. Each part is modelled in the
form the C++ has (a class with methods where the component mutates fields, functions where it computes) and proved
against whatever its surroundings may do: power cuts between any two steps, failed and half-done flash commits, radios
that hear anything or nothing, chips that answer anything.

## What is modelled

**One-way counters** (`SequenceCounter`, `InitialSequence`, `PreferenceKey`, `OneWaySequenceStore`, `OneWayCommands`,
`OneWayTransmitter`, `OneWayHistory`). A one-way remote gets no replies, so replay safety rests on the hub never reusing
a 16-bit sequence and never jumping past a device's window. `SequenceCounter` is the counter of one address as a machine
whose steps are the points at which power can be lost; a staged value may reach flash even when the save or sync reports
failure. Its 16-bit ring is proved to be an unbounded, strictly increasing index seen modulo 65536, and everything else
follows from that index. `InitialSequence` decides which configured settings are safe. `OneWaySequenceStore` is the C++
class over a shared preference store with an adversarial `Sync`; each of its calls is proved to be a run of that machine
for the address concerned and a harmless disturbance for every other one, which needs the preference keys of all 2^24
addresses to be distinct (`PreferenceKey`). `OneWayTransmitter` is the class that builds bursts and enrollment gestures
on it, `OneWayCommands` what its steps mean: a command is a deed, the events of its counter together with what it leaves
in the log. `OneWayHistory` strings deeds, power losses in the middle of them and power-ups into histories, and carries
replay safety from the counter machine to what the transmitter logs.

**Command queue** (`OperationQueue`, `QueueHistory`, `PollDeferral`). The queue as a class, its operations as functions
on sequences, and histories of asking and dispatching. A device is described by what it was last told (position and
tilt), so coalescing can be compared with a plain first-in-first-out list. `PollDeferral` adds the burst tracker and the
gate that may hold background polls back.

**Key extraction** (`KeyExtraction`). The responder's guards, the hub's handlers around them and the two named timers,
which replace themselves when scheduled again and are never cancelled. A key in transfer is xored, as in the component,
with a block that is any function of the challenge. Arm cycles and the moments at which the radio
hold was set are recorded by ghost state, so that a timer or a deadline of an earlier cycle can be told from one of this
cycle.

**Exchanges** (`RadioLink`, `Listening`, `ExchangeEngine`, `RollCall`). The radio is an oracle that decides what every
wait hears, how long every call takes within the driver's limits, and which transmissions fail; it keeps a trace. The
listen loop, the authenticated retry loop and the broadcast collection run against it, and their contracts are about
that trace. Time is an unbounded natural number read modulo 2^32.

**LR1121 firmware update** (`Lr1121Decisions`, `Lr1121Update`). The decision functions, and the button, the confirmation
window, the ordinary flash and the three-stage bootloader rewrite against a chip that may answer anything.

**Signal average** (`LinkHealth`). The 16-bit fixed-point average against the exact average over real numbers.

## Where the code and its comments part

* `components/home_io_control/oneway_sequence_store.h:77-80` and the comment at
  `components/home_io_control/oneway_sequence_store.cpp:61-66` say a boot never moves a counter backwards. It can:
  `WrapWithInitialSequenceReplays` shows `initial_sequence: 65530` sending 65530 twice around one power loss, because the
  persisted reservation has wrapped to 2 and the comparison is numeric. The configuration accepts 0 to 0xFFFF
  (`components/home_io_control/__init__.py:577`), and exactly the values 0 to 7 are safe: starting from an empty flash
  with one constant setting, no run short of a whole ring repeats a sequence for another command if and only if the
  setting is below one block of 8 (`NoReplayIff`, with a replaying run for every larger one in `ReplaysFromABlockOn`).
  With something in flash, no boot of any run finds the setting ahead of flash if and only if it is at most the residue
  modulo 8 of the flash value (`NeverAheadIff`); that is the condition under which `NoEarlyReuse` and
  `DeviceNeverDesyncs` hold across the wrap. For any setting `SameSequenceSameCommand` holds until a reservation wraps,
  and `BootAcceptedIff` says exactly when a boot that jumps ahead stays acceptable.
* `components/home_io_control/operation_queue.h:67-68` says a control operation drops the device's queued status poll.
  On the coalescing path it does not (`StalePollSurvivesIffMerged`).
* Coalescing can lose a command: `CoalescingMeaning` gives the exact condition under which every device ends up told the
  same as without it, and `CoalescingCanLoseATilt` a case where it is not.
* The key-extraction hold compares `millis()` with a deadline without allowing for the wrap of the clock. In every
  reachable hub with an attempt that made progress since it was armed, that reading is right if and only if the clock
  does not wrap between now and the end of the hold (`HoldReadRightIff`); `HoldLostAtTheWrap` is a run from boot in which
  the reply is out and the radio is not held.
* `components/home_io_control/hub_core.h:721-726` says that a reply that could not be built never holds the radio, since
  an unset deadline is in the past. Arming does not clear the deadline of an earlier arm cycle. In every reachable hub,
  no run of the new cycle in which nothing could be sent or recovered holds the radio if and only if, when it is armed,
  that deadline is not ahead of the clock and either was never set or the clock does not wrap within the cycle
  (`NeverHeldIff`). Disarming and arming again within the hold is enough to be held (`StaleHoldAtOnce`); so is a deadline
  long over once the clock wraps (`StaleHoldAfterTheWrap`).
* A 1W frame that arrives while `millis()` reads 0 is taken for "never" (`FrameAtZeroForgotten`). `TrackIsLastBurst` says
  that the burst tracker is right if and only if no frame inside the last burst reads 0.
* The last check before the flash is erased compares a version read at boot but identifies the chip only when nothing was
  read at boot. A boot-time read that succeeds with version 0 therefore reaches the erase unidentified
  (`VersionZeroReachesErase`, and `VersionZeroIsErased` for the whole power cycle); on every other path the erased chip
  is an LR1121 (`ErasesOnlyLr1121Iff`, `ErasesOnlyAnLr1121`).
* After a challenge was answered, any frame with mirrored endpoints closes the exchange, another challenge included;
  `ExchangeEngine.Accepts` states the rule as the code has it, and `SecondChallengeCloses` shows such an exchange.

## Model

| member | source | states |
|---|---|---|
| SequenceCounter.ReplaySafety | components/home_io_control/oneway_sequence_store.cpp:51-97 | over every run of boots, crashes, failed or partial commits and commands, the numbers handed out are residues of a strictly increasing index and every copy on air carries its own command's number |
| SequenceCounter.SameSequenceSameCommand | components/home_io_control/oneway_sequence_store.cpp:51-97 | for any `initial_sequence` at any boot, until a reservation wraps, equal sequences on air mean the same logical command |
| SequenceCounter.WrapWithInitialSequenceReplays | components/home_io_control/oneway_sequence_store.cpp:61-67 | the wrap condition is needed: one power loss with initial 65530 repeats sequence 65530 under another command |
| InitialSequence.NeverAheadIff | components/home_io_control/oneway_sequence_store.cpp:51-97 | with one constant `initial_sequence`, no boot of any run finds it ahead of flash if and only if it is at most the residue modulo 8 of what flash held at first; from an empty flash, if and only if it is below 8 |
| InitialSequence.NoReplayIff | components/home_io_control/oneway_sequence_store.cpp:51-97 | from an empty flash with one constant `initial_sequence`, no run short of a whole ring puts one sequence on air for two commands if and only if the setting is below 8 |
| InitialSequence.ReplaysFromABlockOn | components/home_io_control/oneway_sequence_store.cpp:61-67 | for every setting of 8 and more, a run with one power loss, short of a ring, that repeats its first sequence |
| SequenceCounter.NoEarlyReuse | components/home_io_control/oneway_sequence_store.cpp:76-97 | with `initial_sequence` never ahead of flash, a number comes back only after 65536 commands less 8 per reboot in between |
| SequenceCounter.SkipBound | components/home_io_control/oneway_sequence_store.h:45-57 | commands and reboots together bound how far ahead any later number can be: one per command, 8 per reboot |
| SequenceCounter.DeviceNeverDesyncs | components/home_io_control/oneway_sequence_store.h:37-57 | a device with window 1000 that heard one command accepts every later one it hears, across the wrap, while 8 per reboot plus 1 per missed command fits its window |
| SequenceCounter.BootAcceptedIff | components/home_io_control/oneway_sequence_store.cpp:59-72 | the first command after a boot that may jump to `initial_sequence` is accepted if and only if the jump fits what is left of the window or goes all the way round |
| SequenceCounter.FlashWear | components/home_io_control/oneway_sequence_store.cpp:81-92 | 8 times the committed reservations is at most the commands handed out plus 8 per boot |
| SequenceCounter.RunIsCellRun | components/home_io_control/oneway_sequence_store.cpp:76-97 | what a hub hands out over a run is exactly what its counter hands out over the same events |
| PreferenceKey.KeyInjective | components/home_io_control/oneway_sequence_store.cpp:28-37 | no two of the 2^24 controller addresses share a 32-bit preference key |
| OneWaySequenceStore.Flash.Sync | components/home_io_control/oneway_sequence_store.cpp:39-47 | a successful sync makes everything staged durable; a failed one may have committed, kept or dropped any entry |
| OneWaySequenceStore.Flash.Persist | components/home_io_control/oneway_sequence_store.cpp:43-47 | success means durable; failure leaves each key with its old or its staged value |
| OneWaySequenceStore.DisturbanceIsARun | components/home_io_control/oneway_sequence_store.cpp:43-47 | what another address's persist can do to a counter is a run of commit and drop steps of that counter |
| OneWaySequenceStore.Store.Find | components/home_io_control/oneway_sequence_store.cpp:120-134 | the first entry of an address, or none |
| OneWaySequenceStore.Store.AddIdentity | components/home_io_control/oneway_sequence_store.cpp:51-74 | registering is one boot step for a new address, nothing for a registered one, and nothing for the others |
| OneWaySequenceStore.Store.Persist | components/home_io_control/oneway_sequence_store.cpp:43-47 | persisting one address commits, stages or loses only its own value and at most settles staged values of others |
| OneWaySequenceStore.Store.ReserveBlock | components/home_io_control/oneway_sequence_store.cpp:81-92 | RAM takes the new block only after flash confirmed it; otherwise RAM is unchanged |
| OneWaySequenceStore.Store.Next | components/home_io_control/oneway_sequence_store.cpp:76-97 | each call is a run of the counter machine that hands out the old next number, or nothing, and then only because the address is unknown or a block was needed and flash refused it; while a number is left flash is not touched, and a new block ends eight numbers on, in flash and in RAM; other addresses see at most their staged values settle |
| OneWaySequenceStore.Store.Seed | components/home_io_control/oneway_sequence_store.cpp:99-110 | on success RAM and flash hold the given value, backwards included; on failure RAM stands |
| OneWaySequenceStore.Store.Peek | components/home_io_control/oneway_sequence_store.cpp:112-118 | the next number of a registered address, none otherwise |
| OneWayTransmitter.Transmitter.constructor | components/home_io_control/oneway_transmitter.cpp:24-27 | setup boots one counter per configured address, from the first identity that has it |
| OneWayTransmitter.Transmitter.SendBurst | components/home_io_control/oneway_transmitter.cpp:245-278 | exactly four copies of one frame are attempted whatever fails, and the result says whether one went out |
| OneWayTransmitter.Transmitter.Reserve | components/home_io_control/oneway_transmitter.cpp:39-51 | the steps of one reservation: the old next number or none, nothing on air, refused only by flash, and no other address more than settled |
| OneWayTransmitter.Transmitter.Send | components/home_io_control/oneway_transmitter.cpp:29-74 | one number, one report and, if the number was reserved and the frame can be built, exactly four copies of it under that number, and else none; the report says whether some copy was sent; the counter goes through a run that puts exactly the logged copies on air, other addresses at most settle, and flash refusals are counted |
| OneWayTransmitter.Transmitter.SendEnrollSweep | components/home_io_control/oneway_transmitter.cpp:205-233 | one burst per configured class that can be built, in class order, all under one number, and one report; the same about its own counter and the others |
| OneWayTransmitter.Transmitter.SendVeluxEnrollment | components/home_io_control/oneway_transmitter.cpp:154-203 | exactly the frames of each step in gesture order with strictly rising numbers; STOP and DOWN only if some 0x30 copy went out; true exactly then; one deed per step, in turn from the old counter to the new one, and one flash refusal per step without a number |
| OneWayTransmitter.Transmitter.SendSomfyEnrollment | components/home_io_control/oneway_transmitter.cpp:124-152 | 0x39 then 0x30 with rising numbers; only a sent 0x30 counts as success; the same chain of deeds and count of refusals |
| OneWayTransmitter.Transmitter.SendEnrollment | components/home_io_control/oneway_transmitter.cpp:112-122 | in the log of the first identity with that handle: for manufacturer 1, four copies of 0x39 to no class, of one 0x30 per configured class that can be built (the override, else roller shutter, awning, dual shutter) in order, and of STOP and DOWN if and only if a 0x30 copy went out; for any other manufacturer 0x39 and 0x30 to its own class and nothing else; each under its own reserved number, with its chain of deeds and refusals and every other address at most settled; an unknown handle is reported once and touches nothing; true exactly if a 0x30 copy was sent |
| OneWayCommands.EffectiveClasses | components/home_io_control/oneway_controller.h:132-138 | an override wins, and a VELUX identity never ends up without a class |
| OneWayCommands.Concluded | components/home_io_control/oneway_transmitter.cpp:39-74 | a reservation followed by the bursts of its frames and one report does to any hub with that counter exactly what the log says |
| OneWayCommands.LaterIsAfter | components/home_io_control/oneway_transmitter.cpp:29-74 | over any number of commands of one identity, whatever fails, a later number lies after an earlier one on the 16-bit ring by at most the commands in between |
| OneWayCommands.NumbersRise | components/home_io_control/oneway_transmitter.cpp:29-74 | no two of up to 65536 commands in turn share a number |
| OneWayCommands.FlattenedSteps | components/home_io_control/oneway_transmitter.cpp:124-203 | a step is on air exactly when the report of its own segment says so |
| OneWayCommands.GestureKinds | components/home_io_control/oneway_transmitter.cpp:124-233 | every frame of a step is of that step, from that identity, under that step's number |
| OneWayHistory.ApartIff | components/home_io_control/oneway_transmitter.cpp:29-74 | over every history of commands, cut-off commands, power losses and power-ups, the log keeps the sequences of different commands apart if and only if the counter's run does so on air |
| OneWayHistory.LoggedSequencesApart | components/home_io_control/oneway_sequence_store.cpp:51-97 | over any number of power cycles, wherever a command is cut off, no two commands the transmitter logged on air share a sequence until a reservation wraps |
| OneWayHistory.LoggedSequencesApartPastTheWrap | components/home_io_control/oneway_sequence_store.cpp:51-97 | the same across the wrap, short of a whole ring, from an empty flash under one setting below 8 |
| OneWayHistory.InTurnIsAHistory | components/home_io_control/oneway_transmitter.cpp:29-74 | commands performed in turn, with other addresses in between, are such a history |
| OperationQueue.Queue.PushOperation | components/home_io_control/operation_queue.cpp:16-36 | drops exactly the addressed device's stale status polls, nothing for 1W, keeping the rest in order, then inserts before the first background poll |
| OperationQueue.Queue.EnqueueSetPosition | components/home_io_control/operation_queue.cpp:38-51 | replaces the first pending tilt of the device by one combined operation with that tilt and the new position, else pushes the position |
| OperationQueue.Queue.EnqueueSetTilt | components/home_io_control/operation_queue.cpp:53-64 | replaces the first pending position of the device by one combined operation with that position and the new tilt, else pushes the tilt |
| OperationQueue.Queue.EnqueueRequestStatus | components/home_io_control/operation_queue.cpp:117-124 | appended to the end exactly if the device has no status poll pending, and nothing else moves |
| OperationQueue.Queue.EnqueueRequestName | components/home_io_control/operation_queue.cpp:126-133 | appended to the end exactly if the device has no name poll pending, and nothing else moves |
| OperationQueue.Queue.EnqueueDiscoverAndPair | components/home_io_control/operation_queue.cpp:135-148 | goes in front of exactly what is no poll, in order, unless already pending |
| OperationQueue.Queue.Pop | components/home_io_control/operation_queue.cpp:150-156 | takes the head |
| OperationQueue.EnqueueMeans | components/home_io_control/operation_queue.cpp:16-148 | what each of the fourteen requests makes of any queue: which operation with which values, where, and which entries go, all others kept in order |
| OperationQueue.EnqueueKeepsBands | components/home_io_control/operation_queue.h:60-77 | every request keeps the shape: one DISCOVER in front, then controls, then polls at most once per device, never a separable position and tilt of one device |
| QueueHistory.ReachableBanded | components/home_io_control/operation_queue.cpp:16-156 | every reachable queue has that shape |
| QueueHistory.OneWayHistory | components/home_io_control/operation_queue.cpp:16-36 | 1W operations dispatched and then pending are exactly those asked for, in order, over every history |
| QueueHistory.CoalescingMeaning | components/home_io_control/operation_queue.cpp:38-64 | a request leaves every device told what plain appending would have told it if and only if nothing behind the merged entry commands the same side differently |
| QueueHistory.CoalescingCanLoseATilt | components/home_io_control/operation_queue.cpp:53-64 | that condition is needed: a queue in which a merged tilt is overruled |
| QueueHistory.HistoryMeaning | components/home_io_control/operation_queue.cpp:16-156 | over whole histories of harmless requests, dispatching and queueing amount to first-in-first-out |
| QueueHistory.StalePollSurvivesIffMerged | components/home_io_control/operation_queue.cpp:25-64 | a pending status poll outlives a control request for its device exactly when that request was merged |
| PollDeferral.Activity.RecordAll | components/home_io_control/hub_status.cpp:404-411 | fed any stream of frames, the two timestamps are what the burst rule makes of the whole stream |
| PollDeferral.TrackIsLastBurst | components/home_io_control/hub_status.cpp:404-411 | over any stream of frames whose last burst is shorter than a clock period, the two timestamps are the latest frame and the start of that burst if and only if no frame inside it reads 0; otherwise the start is taken for the frame after the last such one |
| PollDeferral.HeldExactlyDuringBurst | components/home_io_control/hub_core.h:788-796 | the head of the queue is held exactly if it is a poll and either a key extraction waits for a reply, or the last frame is within 700 ms and did not read 0 and the burst, counted from its last zero reading, is younger than 5 s; without zero readings that is the whole burst |
| PollDeferral.FrameAtZeroForgotten | components/home_io_control/hub_decisions.h:224-246 | a frame while millis() reads 0 holds nothing and does not extend a burst |
| PollDeferral.CommandsNeverDeferred | components/home_io_control/hub_core.h:788-796 | with any command pending in any reachable hub the gate is open and a command is dispatched next |
| PollDeferral.CommandServedInTurn | components/home_io_control/hub_core.cpp:343-348 | a command with k operations ahead is the k-th dispatched from now whatever polls, 1W traffic or requests other than pairing come in between |
| KeyExtraction.Responder.SetArmed | components/home_io_control/hub_key_extraction.cpp:128-172 | arming starts a blank cycle under the given address and sets the auto-off timer to ten minutes from now; disarming cancels no timer |
| KeyExtraction.Responder.TryHandleFrame | components/home_io_control/hub_key_extraction.cpp:174-205 | consumes exactly discovery requests and responder frames for the throwaway address while armed; moves the attempt exactly one step where the frame is due and nowhere else; sends exactly the reply that is due, with the sender, the addressee, the challenge and the key it has to carry; and sets the grace timer and the hold exactly when a key was recovered or a reply went out |
| KeyExtraction.Responder.HandleKeyTransfer | components/home_io_control/hub_key_extraction.cpp:304-337 | a short or unrecoverable payload changes nothing; a recovered key arms the grace timer even if the confirm cannot be built |
| KeyExtraction.Responder.HandleAddressReq | components/home_io_control/hub_key_extraction.cpp:339-358 | only the hub that gave the key is answered, and the grace timer moves out |
| KeyExtraction.Responder.GraceFires | components/home_io_control/hub_key_extraction.cpp:411-430 | the grace callback disarms only a completed attempt |
| KeyExtraction.NoStaleGraceKills | components/home_io_control/hub_key_extraction.cpp:412-430 | over every run, a grace callback that disarms was set in this very arm cycle after a key was recovered in it; a completed attempt always has such a timer pending |
| KeyExtraction.ArmedAtMostTenMinutes | components/home_io_control/hub_key_extraction.cpp:150-168 | no arm cycle and no hold outlives ten minutes from the latest arm call, and an idle responder holds nothing |
| KeyExtraction.DisarmsOnTime | components/home_io_control/hub_key_extraction.cpp:150-168 | in every reachable hub the auto-off timer disarms ten minutes after the latest arm call and not before, and the grace timer a completed attempt 60 s after its last progress and not before |
| KeyExtraction.ForeignHubsDoNotInterfere | components/home_io_control/pairing_responder.cpp:40-56 | while an attempt is completed, deleting every frame of other hubs changes neither state, timers nor replies |
| KeyExtraction.SameChallenge | components/home_io_control/pairing_responder.cpp:65-77 | every 0x3C of one stay in SENT_CHALLENGE carries the challenge the key will be unwrapped with |
| KeyExtraction.CryptTwice | components/home_io_control/proto_crypto.cpp:412-430 | wrapping and recovering are one operation that undoes itself, whatever block the challenge yields |
| KeyExtraction.KeyRecovered | components/home_io_control/pairing_responder.cpp:65-86 | after any pattern of retried 0x31 and lost replies, the 0x32 made for any challenge of the stay yields exactly the hub's key, whatever key it is and whatever block the challenge yields |
| KeyExtraction.RepliesIff | components/home_io_control/hub_key_extraction.cpp:245-393 | in any state a frame brings a given reply if and only if it is the one due in that stage, from the throwaway address to the sender, and never two |
| KeyExtraction.KeyOrigin | components/home_io_control/pairing_responder.cpp:65-86 | over every run since boot, the key of a completed attempt is the payload of the 0x32 that ended its exchange with the block taken off of the challenge drawn at the 0x31 that began it, and the hub is the sender of that 0x31 |
| KeyExtraction.AddressAnswered | components/home_io_control/hub_key_extraction.cpp:360-393 | over every run since boot, every 0x3D answers the 0x3C just received, over its first six bytes, to the hub that began the exchange and has asked for the address since, under exactly the key that hub wrapped with the challenge drawn for it |
| KeyExtraction.ExtractionHappens | components/home_io_control/hub_key_extraction.cpp:174-393 | for every key and every two challenges, a whole pairing from boot: armed, 0x28, 0x2C, 0x31, the 0x32 with the key under its block, 0x36 and 0x3C bring exactly the six replies, the last over that challenge under that key |
| KeyExtraction.HeldSinceLastProgress | components/home_io_control/hub_core.h:1105-1120 | over every run the hold ends 5 s after the last reply, or 60 s after the last progress once a key was recovered |
| KeyExtraction.HoldReadRightIff | components/home_io_control/hub_core.h:727-731 | in every reachable hub whose attempt made progress since it was armed, the loop holds the radio exactly until the end of the hold if and only if the clock does not wrap between now and that end |
| KeyExtraction.HoldLostAtTheWrap | components/home_io_control/hub_core.h:727-731 | that condition is needed: a run from boot in which the reply is out and the radio is not held |
| KeyExtraction.NeverHeldIff | components/home_io_control/hub_key_extraction.cpp:128-144 | in every reachable hub: no progress-free run of the cycle now armed holds the radio if and only if the deadline found is not ahead of the clock and either 0 or met by no wrap of the clock within the cycle |
| KeyExtraction.StaleHoldAtOnce | components/home_io_control/hub_key_extraction.cpp:128-144 | a run without any wrap in which the deadline of an earlier arm cycle holds the radio although no reply of this one is out |
| KeyExtraction.StaleHoldAfterTheWrap | components/home_io_control/hub_key_extraction.cpp:128-144 | a run in which a deadline that was long over does so after a wrap |
| RadioLink.TimeLeft | components/home_io_control/exchange_engine.cpp:598-599 | the signed difference to a deadline is the true time left for windows and overshoots below 2^31, across the wrap |
| RadioLink.WindowOpensIff | components/home_io_control/exchange_engine.cpp:581-598 | a listen waits at all if and only if its window is between 1 and 2^31 - 1 ms |
| Listening.HopCovers | components/home_io_control/exchange_engine.cpp:91-111 | a hop lands on a channel other than the skipped one from any frequency, and repeated hops visit every other channel |
| Listening.HopFrequency | components/home_io_control/exchange_engine.cpp:91-111 | the loop retunes exactly one rotation step, two when the first is skipped |
| Listening.NeverCutsOff | components/home_io_control/exchange_engine.cpp:578-634 | holding never retunes, skipping never waits on the request channel, and no later hop of a lingering listen follows a sign of an incoming frame |
| Listening.DwellsEnd | components/home_io_control/exchange_engine.cpp:606-633 | what each event of a listen is followed by: a hop and a sign of a frame by a wait, a quiet look by a hop, the end of a dwell by a look if the listen lingers and else by a hop |
| Listening.Listen | components/home_io_control/exchange_engine.cpp:578-634 | deliveries reach the handler once and in order, the first verdict other than IGNORE ends the listen there; every wait lasts exactly the time left on the request channel, else at most the spec's dwell or the driver's, or the linger dwell after a sign of a frame; all its time goes into waits, hops and looks, it times out only when these cover its window, it hops once per served dwell along the rotation, and it ends within a fixed overshoot |
| Listening.Linger | components/home_io_control/exchange_engine.cpp:625-632 | the extension hears what is coming in without a hop, and stays bounded even if the deadline passes just before it |
| ExchangeEngine.Engine.TransmitFrame | components/home_io_control/exchange_engine.cpp:130-162 | a frame that serializes is sent once: at the first look that finds the channel free, else after the allowed number of busy looks, 5 ms after each; within a fixed time |
| ExchangeEngine.Engine.AwaitReply | components/home_io_control/exchange_engine.cpp:362-399 | holds the request channel and returns the first frame from the request's destination to its source, the last thing heard, with none such before; or nothing, with none such heard, once the waits on it cover the window; no time is spent otherwise |
| ExchangeEngine.Engine.HandleAuthentication | components/home_io_control/exchange_engine.cpp:401-429 | sends exactly the answer to the challenge just heard, for this request, if it can be built |
| ExchangeEngine.Engine.Attempt | components/home_io_control/exchange_engine.cpp:263-331 | one try sends the request once if it serializes and answers at once a challenge that can be answered; its result tells exactly whether the exchange is now answered, unconfirmed or unchanged, within one try's worst-case time, and unless it is answered it has waited on the channel the window of a request that went out unchallenged and of a 0x3D |
| ExchangeEngine.Engine.SendAndReceive | components/home_io_control/exchange_engine.cpp:251-337 | a response if and only if a frame from the request's destination to its source was heard that was no 0x3C unless a 0x3D had just been sent, and that frame, heard last; unconfirmed if and only if there was none and a 0x3D went out; field by field what it may put on air: the request with its preamble, and right after a 0x3C to the request its 0x3D to that peer, which is never left out if it can be built; each followed by a wait of its whole window; between one and clamp(max_tries, 1, 3) requests, fewer without an answer only when the budget is spent; 250 ms between tries; no request goes out, and without an answer nothing ends, before the windows owed were spent waiting; over within budget, one retry delay and one try |
| ExchangeEngine.NeverMovesTwice | components/home_io_control/hub_decisions.h:103-116 | a request with command 0x00 is never sent again after a 0x3D for it went out, and nothing follows the closing frame |
| ExchangeEngine.SecondChallengeCloses | components/home_io_control/exchange_engine.cpp:431-467 | a lawful exchange that a second challenge closes, left unanswered |
| ExchangeEngine.MatchingMeans | components/home_io_control/exchange_engine.cpp:501-513 | the replies collected are exactly the delivered frames with the expected command for this controller, in order, repeats included |
| ExchangeEngine.Engine.CollectBroadcastResponses | components/home_io_control/exchange_engine.cpp:473-517 | exactly the matching deliveries of a listen off the request channel, with the driver's dwell, 15 ms for a frame coming in and no hop after an ignored packet, whose waits, hops and looks cover the window, in order and with repeats; the count saturates at 255 |
| RollCall.OneEntryPerSource | components/home_io_control/management_actions.cpp:799-815 | a source has an entry if and only if it replied, and never two |
| RollCall.FirstRepliesMean | components/home_io_control/management_actions.cpp:799-839 | the entries are, in order of arrival, exactly each source's first reply with that reply's source, data and signal strength |
| RollCall.AddScanResponder | components/home_io_control/management_actions.cpp:811-839 | duplicate before full before append, with the array's first entries untouched |
| RollCall.RecordAll | components/home_io_control/management_actions.cpp:867-872 | fed the replies of one attempt after those of earlier ones, the array holds the first 24 distinct sources of all of them in order of arrival, and the flag says whether there was a 25th |
| RollCall.ScanPairedDevices | components/home_io_control/management_actions.cpp:841-885 | the radio sees exactly one roll-call broadcast per channel with a request of its own and after each that went out a listen off its channel whose waits, hops and looks cover the window; the report is the first 24 distinct sources these listens delivered, in order of arrival, with each one's first reply, truncated if and only if there was a 25th; it fails if and only if the hub is not initialized or some request cannot be built |
| Lr1121Decisions.RewriteAvailableIff | components/home_io_control/lr1121_firmware_decisions.h:210-231 | the bootloader rewrite is available if and only if the feature is built in, bootloader and loader are 0x2100 and the target is 0x0104, and exactly when it is blocked by a newer bootloader or an unknown target |
| Lr1121Decisions.DecisionTable | components/home_io_control/lr1121_firmware_decisions.h:290-325 | every verdict, and exactly when it is given |
| Lr1121Decisions.ProceedsUnaskedIff | components/home_io_control/lr1121_firmware_decisions.h:290-325 | one press flashes if and only if both identity reads name an LR1121, the pairing is known good and the image is newer |
| Lr1121Decisions.SecondPressDecidesAgain | components/home_io_control/lr1121_firmware_decisions.h:290-325 | acting on the cached verdict plus a second press equals deciding again with the confirmation; no rejection is overridden |
| Lr1121Decisions.ErasesOnlyLr1121Iff | components/home_io_control/hub_lr1121_firmware_update.cpp:106-118 | past verdict and sanity check the chip has shown an LR1121 bootloader version if and only if the boot-time read did not succeed with version 0 |
| Lr1121Decisions.VersionZeroReachesErase | components/home_io_control/hub_lr1121_firmware_update.cpp:106-118 | version 0 at boot and at flash time passes both |
| Lr1121Update.Hub.Setup | components/home_io_control/hub_core.cpp:100-125 | setup, with the switch restored before it or not, does exactly this: reads the bootloader once and leaves it, configures the radio, reads the installed version if it can and caches the verdict; what the hub remembers is what the chip answered |
| Lr1121Update.Hub.CacheVerdict | components/home_io_control/hub_lr1121_firmware_update.cpp:318-339 | the cached verdict is the decision on the boot-time read and one normal-mode read, unknown where a read failed |
| Lr1121Update.Hub.TriggerFirmwareUpdate | components/home_io_control/hub_lr1121_firmware_update.cpp:504-592 | a press restarts the hub if and only if it is not busy and verdict, confirmation and switch allow it, and then it has done exactly the ordinary flash or the rewrite its verdict calls for; the first press that wants confirming leaves exactly the question and arms the window for 60 s; every other press changes nothing |
| Lr1121Update.Hub.PressTwice | components/home_io_control/hub_lr1121_firmware_update.cpp:504-592 | two presses up to a minute apart, for a verdict that wants confirming, restart the hub |
| Lr1121Update.Hub.PressTooLate | components/home_io_control/hub_lr1121_firmware_update.cpp:504-592 | once the window has closed the second press only asks again |
| Lr1121Update.Hub.RunFlashSequence | components/home_io_control/hub_lr1121_firmware_update.cpp:594-678 | the whole trace for whatever the chip answers: the bootloader entered; if its answer is not sane the way out and a restart; else erase, write, hash, reboot and read-back, each as far as the one before allows, and a restart |
| Lr1121Update.Hub.WriteLoader | components/home_io_control/hub_lr1121_firmware_update.cpp:682-789 | goes on only with the loader erased for, written and started, and the chip positively reporting type 0xDE and firmware 0x2100; otherwise it has restarted at once after the answer that stopped it |
| Lr1121Update.Hub.RewriteBootloader | components/home_io_control/hub_lr1121_firmware_update.cpp:790-877 | goes on only after update, status read, all six verification bits, updater restart and a bootloader read of 0x2101, in this order; otherwise it has restarted at once after the answer that stopped it |
| Lr1121Update.Hub.WriteTransceiver | components/home_io_control/hub_lr1121_firmware_update.cpp:879-930 | enters the new bootloader, erases only after a second read of 0x2101, and ends like the ordinary flash |
| Lr1121Update.Hub.RunBootloaderUpgradeSequence | components/home_io_control/hub_lr1121_firmware_update.cpp:682-930 | the whole trace for whatever the chip answers: eleven operations in turn and then the transceiver image, or a restart at once after the first answer that must stop it |
| Lr1121Update.IrreversibleWriteIsSafe | components/home_io_control/hub_lr1121_firmware_update.cpp:682-930 | in every power cycle UpdateBootloader is issued at most once, with the switch on, boot-time bootloader and loader 0x2100, a target needing 0x2101, the loader written and type 0xDE with 0x2100 just read |
| Lr1121Update.EraseAfterRewrite | components/home_io_control/hub_lr1121_firmware_update.cpp:790-930 | in every power cycle, once the rewrite was sent an erase follows only the whole proof (acknowledged, six bits, updater restarted, a read of 0x2101) and a second read of 0x2101 |
| Lr1121Update.TransceiverAfterRewrite | components/home_io_control/hub_lr1121_firmware_update.cpp:790-930 | in every power cycle, a bootloader found too old takes the transceiver image only after such an erase |
| Lr1121Update.ErasesOnlyAnLr1121 | components/home_io_control/hub_lr1121_firmware_update.cpp:504-678 | unless the read of setup returned version 0, every erase directly follows a read of type 0xDF and an LR1121 version |
| Lr1121Update.VersionZeroIsErased | components/home_io_control/hub_lr1121_firmware_update.cpp:106-118 | for every configuration, a whole power cycle that keeps all the rules, from setup over two presses to the erase of a chip that reported version 0 twice |
| Lr1121Update.EnteredOnPurpose | components/home_io_control/hub_lr1121_firmware_update.cpp:485-592 | after boot the bootloader is entered only under PROCEED, by a press answering a question asked within the window, for a permitted rewrite, or after a proven one; and by one press only |
| LinkHealth.Device.UpdateLinkHealth | components/home_io_control/hub_internal.h:509-529 | stamps the device, and blends a valid reading in 16-bit arithmetic |
| LinkHealth.AverageInRange | components/home_io_control/hub_internal.h:520-528 | the scaled average stays between the scaled bounds of the readings and never overflows when those fit |
| LinkHealth.WithinHalfADbm | components/home_io_control/hub_internal.h:520-528 | over every history of readings the fixed-point average is within half a dBm of the exact exponential average |
| LinkHealth.MovesCloser | components/home_io_control/hub_internal.h:524-528 | under a constant signal the average moves strictly toward it without passing it until its rounding is exact, then stays |
| LinkHealth.ShrinksGeometrically | components/home_io_control/hub_internal.h:524-528 | under a constant signal every reading leaves at most 7/8 of the distance beyond half a step |
| LinkHealth.ConvergesFast | components/home_io_control/hub_internal.h:524-528 | it rounds to that reading after a number of readings logarithmic in the distance |
| LinkHealth.Converges | components/home_io_control/hub_internal.h:524-528 | after as many equal readings as it was away in fixed point, and ever after, it rounds to that reading |

## Left out

- SPI transport, radio drivers and register access: the radio and the LR1121 are oracles with contracts.
- Assumption on the radio: every wait takes at least 1 ms and returns at most `late` ms after its timeout (the software-PHY driver returns only once more than the timeout has elapsed), one transmission and one short register access have upper bounds, and time passes in radio calls and delays only; two successive clock reads see the same time.
- AES, HMAC and frame bytes: the block that covers a key in transfer is any function of the challenge and may fail to be computed, frame builders may fail, and a packet either parses to a frame or does not.
- Loading a preference at boot returns what is durable; flash wear-out and corruption are not modelled.
- Registration of an address is modelled as the boot of its counter; that two configured identities never share an address is not assumed, the second registration simply does nothing.
- SequenceCounter.SameSequenceSameCommand: stops at the first reservation that wraps, because with an `initial_sequence` ahead of flash the code does repeat numbers there; `InitialSequence.NoReplayIff` says for which settings it goes on.
- InitialSequence.NoReplayIff: one setting for the whole run, from an empty flash; a setting that is changed between boots is covered until a reservation wraps.
- `seed()` in the replay theorems: it moves a counter backwards on purpose and has its own contract.
- Listening.Listen: windows of 2^31 ms and more are outside its contract, because the signed comparison takes them for expired; `RadioLink.WindowOpensIff` states the boundary.
- Listening.Listen: the handler is a function from what was received to a verdict; what handlers count or log on the way is computed from the packets handed over.
- PollDeferral.TrackIsLastBurst: a silence of a few milliseconds past whole clock periods (49.7 days) looks short to the tracker and is excluded, and so is a burst that lasts a whole clock period.
- KeyExtraction.HoldReadRightIff: the scheduler runs a timer at most 2^29 ms late.
- OneWayHistory.LoggedSequencesApart: power may be lost between any two steps of a command, not inside a single transmission.
- PollDeferral.CommandServedInTurn: a pairing request in between goes to the front of the queue, as the code has it, and is excluded.
- Duplicate suppression of received 1W frames, link health counters, status polling policy, optimistic state and the device registry.
- The idle-path hop of the main loop and its hold-off while a frame arrives.
- The pairing engine's own use of the listen loop, and authentication of frames a device sends on its own.
- Generation of the throwaway address, and the address and challenge-response bytes of the key-extraction replies.
- Timers: the key-extraction timers and the flash confirmation may fire up to `late` ms after they are due; the scheduler itself is not modelled.
- Chunked writing inside one flash image: an image write either succeeds or fails as a whole.
- Logging, reports and their wording, YAML and service registration, Home Assistant events.
