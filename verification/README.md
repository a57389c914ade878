# gojail, verified

A Dafny model of the parts of gojail where a mistake would be hard to see in a test: the two seccomp-to-BPF
generators, the warm worker pool, the job registry and the connection handlers around it, the address allocator and
the port-forwarding rules on top of it, the frame protocol and the multiplexed output stream, and the stale-mount
sweep. `dafny verify dfyconfig.toml` checks everything.

## How the model is built

Code that updates state in place is a class or a method with loops, proved equal to a specification function on
values (`IPAM`, `Manager`, `JobRegistry`, `Pool`, `MountTable`, `FrameReader`, `FrameWriter`, `CompileBPF`,
`BuildDenylist`). Code that runs concurrently is a step function over those same specification functions; an event
that is not enabled leaves the state alone, and a run is any list of events (`Runs`). Main results are about every
run. The host is abstract: each fallible call takes a parameter that says whether it succeeds, and every pattern of
failures is covered. Worker ids are taken as fresh.

| module | models |
|---|---|
| `CBpf` | the part of the kernel's classic BPF machine that the two programs use |
| `SyscallTable`, `SeccompFilter`, `Denylist` | name table; profile compiler with inline returns; built-in denylist with one shared return |
| `GoSort` | what `sort.Slice` promises: some ordered permutation |
| `WarmPool`, `PoolProtocol` | building and destroying workers, the channel, close; their interleavings |
| `JobStates`, `Registry`, `JobLifecycle`, `ConnectionHandler` | registry operations, whole daemon runs, one handler on the registry object |
| `Ipv4`, `Ipam`, `IpamProtocol` | dotted-quad text and masks, the allocator, its lock-load-write-rename protocol with crashes |
| `Nat`, `NatProtocol` | rules, setup with rollback, cleanup; containers coming and going concurrently |
| `Frames`, `RunStream` | frame codec, reader and writer; two pumps and the exit frame on one connection, and the client |
| `Paths`, `MountSweep` | `filepath.Clean` and the test for "at or below"; selecting, sorting and detaching stale mounts |
| `Prelude` | shared types, texts with separators |
| `Runs` | runs of a step function and their invariants |

## What the code does that its comments and messages do not say

Each of these is proved below, with the exact condition.

- The built-in profile lists `sysfs`, but the name table has no such entry, so its program allows the call
  (`SeccompFilter.HardenedProfileAllowsSysfs`).
- With several rules on one number nothing in the contract of `sort.Slice` decides which one wins
  (`SeccompFilter.EveryDuplicateCanWin`, `SeccompFilter.VerdictIsDeterminedIffRulesAgree`).
- An errno that is a non-zero multiple of 2^16 makes a denied call "fail" with error 0, and the process sees the
  listed errno exactly when it is at most 4095 (`SeccompFilter.ErrnoSurvivesTruncation`,
  `SeccompFilter.ErrnoDeliveredIff`).
- The denylist layout enforces the last 255 entries only (`Denylist.DenylistMeaning`); the shipped list has 14.
- `Pool.Close` leaves the daemon's pipe ends of idle workers open, so a failed prefill leaves exactly
  those of the workers it had built: it restores the host if and only if the very first build fails
  (`WarmPool.DrainedSets`, `WarmPool.Pool.Prefill`).
- A lookup swallows lock and load failures: a container that holds a lease is answered "not leased", and a cleanup
  that is told so leaves its rules and its lease (`IpamProtocol.FailedLookupHidesLease`,
  `IpamProtocol.LookupLinearizableIff`, `Nat.Manager.Cleanup`).
- A pause accepted between attaching the cgroup and the executor's thaw is undone by the thaw: the job stays listed
  as paused while it runs (`JobLifecycle.EarlyPauseIsLost`).
- The registry alone does not protect a terminal status; the handlers' call discipline does
  (`JobStates.SecondFinishKeepsStatusIff`, `JobLifecycle.TerminalAbsorbs`).
- With a prefix longer than 24 the allocator can grant addresses outside its subnet (`Ipam.CandidatesInSubnetIff`).
- A failed port-forwarding setup leaves rules behind unless the very first mapping is refused
  (`Nat.FailedForwardingLeavesNothingIff`).
- A connection that ends between two frames, or right after a header, looks like a finished run with exit code 0 to the
  client (`RunStream.CutRunAtClient`).
- With "/" as the directory to sweep, only the root itself matches, so it is detached first and drags along what is
  mounted beneath it. Order, confinement and completeness of the sweep hold if and only if this is not the case
  (`MountSweep.TeardownOrderIff`, `MountSweep.OutsideKeptIff`, `MountSweep.SweepCleansIff`; a failing input is
  `MountSweep.RootDirectoryIsSpecial`).

## Model

| member | source | states |
|---|---|---|
| SeccompFilter.CompilerCorrect | pkg/seccomp/filter.go:111-177 | for every profile, call and sorted permutation the program kills foreign architectures and otherwise returns a verdict that the profile prescribes: that of a table-known rule on the number, or the default when there is none |
| SeccompFilter.UnnamedCallGetsDefault | pkg/seccomp/filter.go:164-174 | an x86-64 call that no rule names gets, for every sorted permutation, the verdict word of the profile's own default action, given in numbers |
| SeccompFilter.UnnamedCallIsDecided | pkg/seccomp/filter.go:164-174 | what the kernel then does with it, by default action |
| SeccompFilter.NamedCallGetsItsRule | pkg/seccomp/filter.go:148-171 | a named call gets the verdict word of one of the rules that name it, by action and errno, given in numbers |
| SeccompFilter.HardenedVerdicts | pkg/seccomp/filter.go:38-58 | what the built-in program does with every x86-64 call number |
| SeccompFilter.ProgramInNumbers | pkg/seccomp/filter.go:131-174 | every instruction of the program, in numbers |
| SeccompFilter.VerdictWords | pkg/seccomp/filter.go:91-109 | the verdict words in numbers |
| SyscallTable.Numbers1 | pkg/seccomp/filter.go:209-231 | the numbers of one group of names, as in the x86-64 system call numbering |
| SyscallTable.Numbers2 | pkg/seccomp/filter.go:209-231 | the numbers of one group of names, as in the x86-64 system call numbering |
| SyscallTable.Numbers3 | pkg/seccomp/filter.go:209-231 | the numbers of one group of names, as in the x86-64 system call numbering |
| SyscallTable.Numbers4 | pkg/seccomp/filter.go:209-231 | the numbers of one group of names, as in the x86-64 system call numbering |
| SyscallTable.Numbers5 | pkg/seccomp/filter.go:209-231 | the numbers of one group of names, as in the x86-64 system call numbering |
| SyscallTable.Numbers6 | pkg/seccomp/filter.go:209-231 | the numbers of one group of names, as in the x86-64 system call numbering |
| SyscallTable.Numbers7 | pkg/seccomp/filter.go:209-231 | the numbers of one group of names, as in the x86-64 system call numbering |
| SeccompFilter.VerdictIsDeterminedIffRulesAgree | pkg/seccomp/filter.go:148-171 | the verdict is the same for every outcome of the sort if and only if all rules on the number give one verdict |
| SeccompFilter.EveryDuplicateCanWin | pkg/seccomp/filter.go:159-161 | each rule on a number is the winner under some sorted permutation |
| SeccompFilter.UniqueRuleDecides | pkg/seccomp/filter.go:148-171 | a rule that alone names its number decides it, wherever the sort puts it |
| SeccompFilter.UntabledNumberGetsDefault | pkg/seccomp/filter.go:148-152 | no profile can affect a number that the name table does not carry |
| SeccompFilter.HardenedProfileAllowsSysfs | pkg/seccomp/filter.go:38-58 | the built-in profile's program allows `sysfs`, although the profile lists it with an errno action |
| SeccompFilter.KnownIffNamed | pkg/seccomp/filter.go:148-157 | the compiled rules are exactly the translations of the rules with known names |
| SeccompFilter.RunChecks | pkg/seccomp/filter.go:166-174 | entering check i decides among the rules from i on: first match, else default |
| SeccompFilter.RunProgram | pkg/seccomp/filter.go:129-176 | the whole program is an architecture check followed by first match |
| SeccompFilter.FirstMatchIsAMatch | pkg/seccomp/filter.go:166-174 | the first match is a rule on the number, or the default when no rule is |
| SeccompFilter.VerdictDecodes | pkg/seccomp/filter.go:91-109 | the kernel reads a verdict word as the action meant; an errno word makes the process see the errno modulo 2^16, 0 standing for EPERM, capped at 4095 |
| SeccompFilter.ErrnoSurvivesTruncation | pkg/seccomp/filter.go:95-99 | the process sees a non-zero error if and only if the errno is 0 or not a multiple of 2^16 |
| SeccompFilter.ErrnoDeliveredIff | pkg/seccomp/filter.go:95-99 | it sees exactly the errno the rule stands for if and only if that is at most 4095 |
| SeccompFilter.TranslateRules | pkg/seccomp/filter.go:146-157 | the translation loop keeps the known rules in profile order |
| SeccompFilter.EmitChecks | pkg/seccomp/filter.go:166-171 | the emitting loop appends one check and one return per rule, in order |
| SeccompFilter.CompileBPF | pkg/seccomp/filter.go:111-177 | the compiler emits a program that implements the profile on every call: foreign architectures are killed, calls that no rule names get the default action's word, and the program is the one for some sorted permutation of the known rules |
| SeccompFilter.ProgramWellFormed | pkg/seccomp/filter.go:129-176 | every jump stays inside, every path can only end at a return, and the length is 5 plus 2 per known rule |
| SeccompFilter.LengthFieldExact | pkg/seccomp/filter.go:196-199 | the 16-bit length handed to the kernel is right exactly up to 32765 known rules |
| SeccompFilter.KnownLength | pkg/seccomp/filter.go:148-152 | rules are only dropped, and none is dropped exactly when every name is known |
| CBpf.EveryPathReturns | pkg/seccomp/filter.go:129-176 | from every instruction of a well-formed program every path ends at a return further on, for every input |
| GoSort.SortSlice | pkg/seccomp/filter.go:159-161 | the contract taken for `sort.Slice`: an ordered permutation, nothing on ties |
| Denylist.DenylistMeaning | pkg/sandbox/security_linux.go:60-111 | for a list of any length the emitted program denies exactly the last 255 entries with EPERM and allows the rest |
| Denylist.DenylistCompleteIff | pkg/sandbox/security_linux.go:88-97 | all listed numbers are denied if and only if the last 255 entries contain them all |
| Denylist.BoundIs255 | pkg/sandbox/security_linux.go:88-97 | without repeats, the 8-bit offset works exactly up to 255 entries |
| Denylist.RunFrom | pkg/sandbox/security_linux.go:88-111 | the pc invariant under wrapped offsets: entering check i denies what is enforceable from i on |
| Denylist.LayoutsAgreeIff | pkg/sandbox/security_linux.go:79-111 | up to 255 entries, shared-return and inline-return layouts agree on a call if and only if it is an x86-64 call, for every sorted permutation of the inline rules |
| Denylist.LengthFieldExact | pkg/sandbox/security_linux.go:113-116 | the 16-bit length handed to the kernel is right exactly up to 65532 entries |
| Denylist.InstalledMeaning | pkg/sandbox/security_linux.go:113-123 | what the truncated length hands over is a well-formed program if and only if the length fits, and then it denies exactly the last 255 entries |
| Denylist.ShippedDenylist | pkg/sandbox/security_linux.go:62-77 | what the shipped program does with every call number |
| Denylist.ProgramInNumbers | pkg/sandbox/security_linux.go:79-111 | every instruction of the program, in numbers |
| Denylist.ProgramWellFormed | pkg/sandbox/security_linux.go:79-116 | for every list, also overlong ones, the jumps stay inside the program |
| Denylist.BuildDenylist | pkg/sandbox/security_linux.go:79-111 | the building loop emits the shared-return program |
| PoolProtocol.PoolConservation | pkg/sandbox/pool.go:303-330 | over every run before Close, idle workers, receivers about to launch, replenishers on their way and failed replenishes add up to the capacity; the send under the mutex always finds room; nothing is sent to or closed twice on a closed channel |
| PoolProtocol.MutexIsReleased | pkg/sandbox/pool.go:318-330 | in every reachable state the mutex holder can step, each step brings it nearer to releasing and nobody sets it back, so neither replenish nor Close deadlocks |
| PoolProtocol.ExclusiveOwnership | pkg/sandbox/pool.go:298-330 | every worker ever built is at exactly one place, and every idle one is frozen, non-terminal, without mounts and of the pool's storage size |
| PoolProtocol.NothingIdleAfterClose | pkg/sandbox/pool.go:524-540 | once Close has returned no worker is idle and no later step makes one idle |
| PoolProtocol.ReceiveGivesStandardWorker | pkg/sandbox/pool.go:303-312 | a real receive hands over a standard frozen worker that nobody else holds; a nil worker comes only from a closed, drained pool |
| PoolProtocol.PrefilledIsInitial | pkg/sandbox/pool.go:108-118 | what a successful prefill leaves is the initial state of the runs |
| PoolProtocol.StepKeepsCount | pkg/sandbox/pool.go:303-330 | every step keeps the counting invariant |
| PoolProtocol.StepKeepsOwnership | pkg/sandbox/pool.go:298-330 | every step keeps the ownership invariant |
| WarmPool.Pool.SpawnWorker | pkg/sandbox/pool.go:121-284 | all or nothing: a complete worker with its overlay, cgroup, attached process and pipes or terminal is added exactly when no step on its path fails, and otherwise the host is as before |
| WarmPool.Pool.Provision | pkg/sandbox/pool.go:124-181 | overlay and cgroup, or neither |
| WarmPool.Pool.StartPty | pkg/sandbox/pool.go:193-217 | a failing terminal start or attach kills the process and gives back terminal, cgroup and overlay |
| WarmPool.Pool.OpenPipesAndStart | pkg/sandbox/pool.go:220-283 | each of the six failures undoes exactly what came before it |
| WarmPool.Pool.Destroy | pkg/sandbox/pool.go:51-77 | destroying a worker restores the host it was built on, for both kinds |
| WarmPool.Pool.constructor | pkg/sandbox/pool.go:94-106 | non-positive capacity and storage fall back to 2 and 64 |
| WarmPool.Pool.Prefill | pkg/sandbox/pool.go:108-117 | every slot filled with a standard worker, or the pool closed and exactly the pipe ends of the workers built so far left over, so that the host is restored if and only if the first build fails; no send blocks |
| WarmPool.Pool.FillSlot | pkg/sandbox/pool.go:109-114 | one prefill round builds and sends one standard worker |
| WarmPool.Pool.Send | pkg/sandbox/pool.go:328 | a send panics on a closed channel and blocks on a full one |
| WarmPool.Pool.TryReceive | pkg/sandbox/pool.go:305-311 | oldest worker first; a closed, drained channel yields nil |
| WarmPool.Pool.AcquireCustom | pkg/sandbox/pool.go:298-316 | a request for a terminal, network, mounts or another size never takes an idle worker and leaves the channel alone; any other takes the oldest if there is one; the worker handed out has the mounts, kind and size asked for; and what is built, with what effect on the host |
| WarmPool.Pool.Replenish | pkg/sandbox/pool.go:318-330 | no effect after close; otherwise one standard worker is built and sent, or nothing happens |
| WarmPool.Pool.Close | pkg/sandbox/pool.go:524-540 | closes and drains once; a second call does nothing |
| WarmPool.DrainedSets | pkg/sandbox/pool.go:534-539 | draining takes away exactly the idle workers' overlays, cgroups and processes, and no pipe end |
| WarmPool.DrainRestores | pkg/sandbox/pool.go:108-114 | draining what a prefill built so far leaves exactly its pipe ends |
| JobLifecycle.KilledIffStopped | pkg/server/registry.go:87-111 | over every run a job is killed exactly when some Stop on it succeeded, timed out only if its deadline really passed, and settled once its handler is done |
| JobLifecycle.TerminalAbsorbs | pkg/server/server.go:215-337 | over every run, no later step of any connection changes a terminal status |
| JobLifecycle.EveryStatusMove | pkg/server/registry.go:87-189 | whatever happens next in a run, a status moves between running and paused or once into a terminal one; jobs start running and never disappear |
| JobLifecycle.StatusMoves | pkg/server/registry.go:87-189 | the same for one step from any state that satisfies the invariant |
| JobLifecycle.PausedIffFrozen | pkg/server/registry.go:114-163 | over every run, for an active job past its executor's start, "paused" agrees with "frozen" if and only if the run has no accepted pause of it between attach and thaw that no later accepted unpause took back |
| JobLifecycle.EarlyIffPending | pkg/server/server.go:248-249 | the state's record of early pauses is exactly that condition on the run's events |
| JobLifecycle.EarlyPauseIsLost | pkg/sandbox/pool.go:437-442 | a run in which such a pause leaves a job listed as paused while its cgroup is thawed |
| JobLifecycle.StepKeepsInv | pkg/server/server.go:215-337 | every step of every connection keeps the status and freeze invariant of every job |
| JobStates.SecondFinishKeepsStatusIff | pkg/server/registry.go:87-111 | when a second finish on a settled job keeps its status, and when it does not |
| JobStates.UnpauseUndoesPause | pkg/server/registry.go:114-163 | unpause is the inverse of pause when the cgroup obeys |
| Registry.JobRegistry.Register | pkg/server/registry.go:35-50 | a registered job is running, without cgroup |
| Registry.JobRegistry.AttachCgroup | pkg/server/registry.go:53-62 | attaches cgroup and limits to an existing job, else nothing |
| Registry.JobRegistry.UpdateFinished | pkg/server/registry.go:87-111 | records the outcome, and the status unless killed |
| Registry.JobRegistry.Pause | pkg/server/registry.go:114-137 | freezes and marks paused only a running job with a cgroup that obeys |
| Registry.JobRegistry.Unpause | pkg/server/registry.go:140-163 | thaws and marks running only a paused job with a cgroup that obeys |
| Registry.JobRegistry.Stop | pkg/server/registry.go:166-189 | succeeds on active jobs only, thaws the cgroup of a paused attached job that obeys, marks the job killed and cancels its context, and nothing else |
| Registry.JobRegistry.WriteFreeze | pkg/sandbox/cgroup_linux.go:87-96 | freezing or thawing takes effect exactly when the write succeeds |
| ConnectionHandler.Daemon.HandleRun | pkg/server/server.go:215-337 | one handler on the registry object, with or without network and with any ending including a stop by another connection, goes exactly through the events of a daemon run, and the job's status, exit code, peak memory, pid and limits end as each ending calls for |
| ConnectionHandler.Daemon.GiveUp | pkg/server/server.go:234-244 | when the network cannot be set up the worker goes and no job appears |
| ConnectionHandler.Daemon.OpenJob | pkg/server/server.go:224-249 | acquire, register and attach, in that order |
| ConnectionHandler.Daemon.StartExecutor | pkg/sandbox/pool.go:431-448 | a batch executor thaws first and gives up when it cannot; a terminal one does not thaw |
| ConnectionHandler.Daemon.AwaitEnd | pkg/sandbox/pool.go:482-498 | the process ends, the deadline passes or a stop cancels the context, then the cgroup goes |
| ConnectionHandler.ExecutorResult | pkg/sandbox/pool.go:487-520 | exit code and timeout flag for each ending: the process's own code, 124 for any ended context, and another wait error only from batch runs |
| ConnectionHandler.Daemon.RecordEnd | pkg/server/server.go:319-329 | the outcome is recorded once, an executor error as exit code 1 |
| IpamProtocol.StateFileIsAtomicHistory | pkg/network/ipam.go:86-158 | from any good table, with any processes, interleaving, failure and crash the state file is never torn, holds the table of a sequence of atomic operations, and that table is injective with hosts .2 to .254 and never the gateway |
| IpamProtocol.Linearizable | pkg/network/ipam.go:161-250 | a call that returns either took effect at one point between issue and return, with the answer the atomic operation gives there, or left no trace and gave its failure answer, which for a lookup is "not leased" |
| IpamProtocol.LookupLinearizableIff | pkg/network/ipam.go:229-250 | the answer of a lookup is the atomic one at some moment of the call if and only if its lock and load succeeded or the container had no lease at some moment of it |
| IpamProtocol.FailedLookupHidesLease | pkg/network/ipam.go:234-238 | from every reachable state in which a container holds a lease, a lookup whose load fails answers "not leased", which no moment of the call explains |
| IpamProtocol.FailureNeedsFault | pkg/network/ipam.go:86-158 | a call fails only through its own lock, load, write or rename |
| IpamProtocol.RealTimeOrder | pkg/network/ipam.go:86-108 | over every run, whatever had returned before a call was issued took effect before it |
| IpamProtocol.MutualExclusion | pkg/network/ipam.go:86-108 | at most one call is inside the lock, so the temporary file has one writer |
| IpamProtocol.LeaseStable | pkg/network/ipam.go:171-250 | after a grant and before the next release of the container, a returned allocation or lookup of it answers with the granted address if and only if none of its own system calls failed, whatever the others do |
| IpamProtocol.ReleaseFrees | pkg/network/ipam.go:214-250 | after a release and before the container's next allocation the state file has no entry for it and lookups find none |
| IpamProtocol.LeaseHeld | pkg/network/ipam.go:171-176 | the table keeps the lease through every prefix of the history up to that release |
| IpamProtocol.ReplayGood | pkg/network/ipam.go:161-227 | every sequence of atomic operations leads to an injective table of usable hosts |
| IpamProtocol.StepKeepsInv | pkg/network/ipam.go:86-158 | every step, failure and crash keeps the protocol invariant |
| Ipam.FirstFitComplete | pkg/network/ipam.go:171-204 | in every good table a new container gets the least unleased host from .2 to .254 while fewer than 253 leases exist, and exhaustion is reported exactly at 253 |
| Ipam.FullIff | pkg/network/ipam.go:189-204 | no host is free exactly when the table has 253 entries, and it never has more |
| Ipam.HostCount | pkg/network/ipam.go:178-182 | a good table leases as many hosts as it has entries |
| Ipam.CandidatesInSubnetIff | pkg/network/ipam.go:36-62 | every address that may be granted lies in the subnet if and only if the prefix is at most 24 |
| Ipam.AllocateKeepsGood | pkg/network/ipam.go:161-211 | allocation keeps the table injective and its hosts usable |
| Ipam.ReleaseKeepsGood | pkg/network/ipam.go:214-227 | so does release |
| Ipam.GoodLookup | pkg/network/ipam.go:230-250 | in a good table every lease parses, to an address that prints back to the entry |
| Ipam.FirstFree | pkg/network/ipam.go:190-202 | the result is the least free host, or the end of the range when none is free |
| Ipam.IPAM.constructor | pkg/network/ipam.go:36-62 | the network is the address with the bits behind the prefix cleared, the gateway its host 1, and the state file is the one that is there |
| Ipam.IPAM.LoadState | pkg/network/ipam.go:111-134 | a missing file is an empty table, a read or parse failure an error |
| Ipam.IPAM.SaveState | pkg/network/ipam.go:137-158 | the file holds the new table, or on failure the old one |
| Ipam.IPAM.UsedTexts | pkg/network/ipam.go:178-182 | the loop collects exactly the address texts of the table |
| Ipam.IPAM.AllocateIP | pkg/network/ipam.go:161-211 | the object refines the atomic allocation: the entry is the text of the address returned, other entries stay, an existing lease is not rewritten, and each failure reports itself and leaves the file alone |
| Ipam.IPAM.ReleaseIP | pkg/network/ipam.go:214-227 | the object refines the atomic release; a missing lease needs no write |
| Ipam.IPAM.GetIP | pkg/network/ipam.go:230-250 | the stored lease if it parses, nothing after a lock or load failure |
| Ipv4.DottedIff | pkg/network/ipam.go:172-192 | a text parses to an address if and only if it is the printed form of it |
| Ipv4.DottedInjective | pkg/network/ipam.go:179-194 | two addresses never share a text, so the string-keyed set of used addresses is exact |
| Ipv4.OctetTextIff | pkg/network/ipam.go:172 | a field parses to a number if and only if it is its decimal form without leading zeros |
| Ipv4.MaskIdempotent | pkg/network/ipam.go:51-54 | masking a masked address changes nothing, for every prefix |
| Ipv4.MaskKeepsLeadingBits | pkg/network/ipam.go:51-54 | masking keeps the leading prefix bits of the 32-bit address and clears the rest |
| Ipv4.DottedExample | pkg/network/ipam.go:191-192 | the text runs from the most significant octet to the least |
| NatProtocol.RuleOwnership | pkg/network/network.go:186-247 | over every run of succeeding commands each container address owns exactly its container's rules in order, a free address none, and the host's other rules are as before |
| NatProtocol.RuleMultiplicity | pkg/network/network.go:186-247 | a rule occurs as often as in the announced part of the list of the container that holds its address |
| NatProtocol.OthersUntouched | pkg/network/network.go:186-247 | in every reachable state, adding or deleting a container's rules leaves the rules of all other addresses in place and in order among each other |
| NatProtocol.CleanupRemovesItsOwn | pkg/network/network.go:325-331 | in every reachable state, cleaning up after a fully set up container leaves exactly the rules of all other addresses, in table order |
| NatProtocol.PacketsReachTheirContainer | pkg/network/network.go:186-218 | in every reachable state, a packet from outside to a host port of a fully set up container that no other address's rule matches goes to that container's port |
| NatProtocol.StepKeepsInv | pkg/network/network.go:186-247 | every step keeps leases injective and each address's rules equal to its container's |
| Nat.RemovalIsExact | pkg/network/network.go:221-247 | deleting a container's full list leaves exactly the rules of all other addresses, in table order, duplicates included |
| Nat.OwnedDelete | pkg/network/network.go:231-245 | one deletion acts on one address's rules only |
| Nat.AppliedInFull | pkg/network/network.go:186-218 | with supported protocols and succeeding commands exactly the mappings' rules are appended |
| Nat.PacketsAreForwarded | pkg/network/network.go:186-218 | after a full setup, a packet to a host port, from outside or local to one of the two host addresses, goes to the container port of the first mapping for it; one to a container port is masqueraded; other packets are untouched |
| Nat.OutsideIsForwarded | pkg/network/network.go:199-204 | packets from outside are forwarded as soon as the call succeeds, even if its other commands were refused |
| Nat.HitStays | pkg/network/network.go:199-215 | a packet that a rule matched before keeps its fate |
| Nat.RemovalUndoesForwarding | pkg/network/network.go:221-247 | removing the mappings restores the table and with it the fate of every packet |
| Nat.ProtoIsLowerCase | pkg/network/network.go:188-191 | the protocol is the lower-case form of the mapping's, and tcp when there is none |
| Nat.FailedForwardingLeavesNothingIff | pkg/network/network.go:170-218 | a failing setup leaves the nat table as it was if and only if the first mapping is refused |
| Nat.Manager.AddMapping | pkg/network/network.go:187-216 | only the protocol and the first command can fail a mapping; refused later commands just miss their rule |
| Nat.Manager.ApplyPortForwarding | pkg/network/network.go:186-218 | table and success flag for every pattern of command failures; on success packets from outside to a host port go to the mapping's container port |
| Nat.Manager.RemovePortForwarding | pkg/network/network.go:221-247 | deletes the list in the order in which it was added, so that a table plus the list becomes the table |
| Nat.Manager.SetupContainerNetwork | pkg/network/network.go:108-183 | after a failure the lease table is restored exactly when the container was new and the releasing works (or it held its lease before and the releasing fails), the links exactly when the link name was new; a success adds the lease, the link and the rules |
| Nat.Manager.ConfigureLeased | pkg/network/network.go:124-182 | each failing step takes back the link, and the lease when the release works |
| Nat.Manager.Cleanup | pkg/network/network.go:325-340 | removes the rules of the leased address while it is still leased, then the lease and the link; what a failing lookup or release leaves |
| Frames.CodecInverts | pkg/protocol/protocol.go:99-156 | every list of frames with payloads below 2^32 bytes is read back exactly, then EOF |
| Frames.TruncationIsSafe | pkg/protocol/protocol.go:139-156 | any strict prefix yields exactly the complete frames in it and then an error, which is EOF exactly at a frame boundary or right after a header |
| Frames.FrameRoundTripIff | pkg/protocol/protocol.go:99-156 | a frame survives the wire if and only if its payload length fits in 32 bits |
| Frames.ParsedFrameIsOnTheWire | pkg/protocol/protocol.go:139-156 | whatever the bytes, a frame that is returned is what stands on the wire |
| Frames.ParsePastFrames | pkg/protocol/protocol.go:139-156 | frames before any other bytes do not disturb what follows |
| Frames.CutFrame | pkg/protocol/protocol.go:139-153 | a frame cut short gives no frame, and which error it gives |
| Frames.Uint32OfPut | pkg/protocol/protocol.go:102 | the length field holds the length modulo 2^32, big-endian |
| Frames.HeaderInNumbers | pkg/protocol/protocol.go:100-102 | type byte first, then the length with the most significant byte first |
| Frames.WindowSizeInNumbers | pkg/protocol/protocol.go:174-182 | rows before columns, high byte first, and a short payload is refused |
| Frames.Source.ReadFull | pkg/protocol/protocol.go:139-153 | the contract of `io.ReadFull` over reads of any size, on a stream that ends or breaks off |
| Frames.FrameReader.ReadFrame | pkg/protocol/protocol.go:139-156 | one call does one parsing step, however the bytes are split into reads |
| Frames.FrameReader.ReadAll | pkg/client/client.go:286-293 | reading to the first error delivers the parse of the whole stream, however it is split |
| Frames.Connection.Write | pkg/protocol/protocol.go:104-111 | a connection that breaks keeps a prefix of what was written |
| Frames.FrameWriter.WriteFrame | pkg/protocol/protocol.go:99-113 | the frame's bytes, or on a break a prefix of them and an error |
| Frames.EncodeWindowSize | pkg/protocol/protocol.go:184-189 | four fresh bytes, rows before columns, big-endian |
| Frames.WindowSizeRoundTrip | pkg/protocol/protocol.go:174-189 | a payload parses to a size if and only if it begins with that size's encoding |
| RunStream.MultiplexedStreamDecodes | pkg/server/server.go:301-336 | for every interleaving of the pumps the wire decodes to frames of type 1 and 2 with at most 4096 bytes and one final frame of type 3, and each stream's frames are the chunks its pump read, in order |
| RunStream.ClientSeesTheRun | pkg/client/client.go:286-313 | end to end, the client's two outputs are the bytes the two pumps read, and its ending is the exit frame if the payload decodes and an error if not |
| RunStream.CutRunAtClient | pkg/client/client.go:286-316 | a cut run never shows an exit frame, its outputs are those of the complete frames, and it reads as success exactly when the stream just ends at a frame boundary or right after a header |
| RunStream.ClientReceive | pkg/client/client.go:286-316 | the receive loop computes the outputs and ending of the byte stream: the first exit frame ends it, with the response if its payload decodes and an error if not, after the output frames before it; a broken stream is an error |
| RunStream.HolderNeverStuck | pkg/server/server.go:307-316 | the pump inside the mutex can always go on to give it back |
| RunStream.InvAlways | pkg/sandbox/pool.go:450-498 | control, log and wire invariants over every run |
| MountSweep.SweepCleansIff | pkg/server/recovery.go:75-112 | if the unmounts work, nothing under the directory remains, stacked mounts are popped once per entry, the rest of the table is as it was and the count is the number of matches, if and only if it is not the root that is swept with mounts beneath it |
| MountSweep.TeardownOrderIff | pkg/server/recovery.go:97-104 | under the same condition exactly, for every sort outcome and pattern of failures, what still lies beneath a target when its turn comes has had its own turn before |
| MountSweep.OutsideKeptIff | pkg/server/recovery.go:102-110 | under the same condition exactly, no point of any sweep has touched anything outside the directory |
| MountSweep.BeneathAlreadyAttempted | pkg/server/recovery.go:97-104 | the order at one attempt of one sweep |
| MountSweep.TableShrinks | pkg/server/recovery.go:102-110 | nothing is ever added to the table |
| MountSweep.ChildrenFirst | pkg/server/recovery.go:97-100 | in a list by descending length nothing comes after something it lies beneath |
| MountSweep.RootDirectoryIsSpecial | pkg/server/recovery.go:88-100 | the failing input: with "/" as directory the root goes before a mount beneath it |
| MountSweep.SweepFrom | pkg/server/recovery.go:102-110 | from any point where exactly the remaining targets are mounted the sweep completes |
| MountSweep.DirectoryIsCleaned | pkg/server/recovery.go:62-77 | an empty argument sweeps /run/gojail/layers, an absolute one its own components |
| MountSweep.CountIsExact | pkg/server/recovery.go:102-110 | the count is the number of targets detached or found missing |
| MountSweep.AttemptsFromTable | pkg/server/recovery.go:102-110 | the sweep's result is that of the attempts still to come on the table reached so far |
| MountSweep.ScanMounts | pkg/server/recovery.go:75-91 | the scan keeps the matching cleaned targets in order and skips short lines |
| MountSweep.MountTable.Unmount | pkg/server/recovery.go:104 | a successful detach pops the topmost mount with all beneath it; an error changes nothing |
| MountSweep.MountTable.UnmountAll | pkg/server/recovery.go:102-110 | one attempt per target in order; a path that does not exist counts as unmounted |
| MountSweep.MountTable.SweepStaleMounts | pkg/server/recovery.go:61-112 | default directory, cleaning, scan, sort and attempts |
| Paths.CleanMatchesIff | pkg/server/recovery.go:77-88 | on raw absolute texts, the test on the cleaned forms selects exactly the targets whose components begin with the directory's, and the root alone for the root |
| Paths.CleanOfPlain | pkg/server/recovery.go:85 | cleaning leaves the path of a mount point alone |
| Paths.CleanOneMore | pkg/server/recovery.go:77-85 | what an empty, ".", ".." or other component does to a cleaned absolute path |
| Paths.BeneathIff | pkg/server/recovery.go:88-100 | lying strictly beneath is having more components behind the other's |
| Paths.MatchesIff | pkg/server/recovery.go:88 | the string test is a test on components |

## Left out

- GoSort.SortSlice: sorts a sequence by a simple method; only the contract of `sort.Slice` is used, not its in-place algorithm.
- Locks and goroutines are steps of a state machine rather than running code; channels are first in, first out.
- Reading the kernel's verdicts: only load, compare and return instructions are modelled, and of the system call data only what they can load.
- JSON profiles, requests, exit payloads and state files are taken as parsed; a state file that does not parse is a load failure.
- `net.ParseIP` is modelled on its IPv4 branch and CIDR texts are taken as parsed, so an allocation entry in IPv6 or mapped notation reads as unparsable.
- IpamProtocol.StateFileIsAtomicHistory: assumes that the file holds a good table at the start, that a rename is atomic and that all writers use the lock; loss of power and missing fsync are not modelled.
- Nat.Manager.SetupContainerNetwork: deleting a link is taken to succeed; bridge setup, the steps inside the network namespace and resolv.conf are single outcomes or absent.
- NatProtocol.RuleOwnership: covers runs whose iptables commands all succeed, since a partly failed setup leaves rules behind (`Nat.FailedForwardingLeavesNothingIff` says exactly when).
- WarmPool.Pool.SpawnWorker: overlay, cgroup and process are abstract resources; the child's ends of the pipes and reaping after a kill are not modelled.
- WarmPool.Pool.AcquireCustom: the launch of the replenisher is a step of `PoolProtocol`, and the handler's crash on a nil worker from a closed pool is not modelled.
- JobLifecycle.PausedIffFrozen: says nothing about a cgroup after its executor has returned.
- ConnectionHandler.Daemon.HandleRun: other connections act at most once, by a stop; all their interleavings are in `JobLifecycle`.
- RunStream.MultiplexedStreamDecodes: assumes the connection accepts all bytes, since the pumps ignore write errors; a cut is treated at the reader. That a process's output is read completely is not claimed, only that what was read is delivered.
- Frames.Source.Read: a reader that returns no bytes and no error is not modelled.
- Terminal input from the client, resize and stdin pumps, statistics, listing, durations, metrics, pid updates and the pid file.
- MountSweep.MountTable.Unmount: takes everything beneath the path along, although mounts that hang on a lower mount of the same stack stay in the kernel's table.
- MountSweep.SweepCleansIff: the mount file is taken as read and as the table at the time of the scan, without octal escapes, and paths mounted over by an ancestor count as reachable.
- DNS files, mount and port specifications, capabilities, namespaces, overlay mounts, the command line and configuration would only add plumbing.
