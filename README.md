# docker-bench decision logic in Dafny

This project models the decision logic of two Docker swarm benchmark programs.

- **instance-scale-bench** is the convergence benchmark. For each request it creates a replicated service with `n` instances. It then polls the task list until exactly `n` tasks of that service are `"running"`. It gives up with a timeout after `20*n` polls. Requests run strictly one after another, and each one fills its slot of a preallocated `timings` array.
- **service-create-bench** is the throughput benchmark. `concurrency` workers each get `requests / concurrency` service-create calls, by truncating integer division. Worker `i` uses image `images[i % len(images)]`. Each worker issues its calls one after another and sends each call's latency on a channel. A single consumer appends every latency it receives, counts it, and prints a progress line against the fixed denominator `requests`.

Files:

- `outcomes.dfy` (module `Outcomes`): the `Result` and `Option` values that stand for the source's panics and optional results.
- `progress.dfy` (module `ProgressReport`): the progress lines both programs print.
- `instance_scale.dfy` (module `InstanceScaleBench`): the running-task count, the poll loop and its stopping point, and the sequential driver.
- `service_create.dfy` (module `ServiceCreateBench`): the partition of requests over workers, a worker, the channel between the workers and the consumer, the consumer, and the whole run.

The Docker calls are replaced by their answers:

- A service-create request is answered by a `CreateReply` or a `CallReply`.
- The i-th task-list call of one poll loop is answered by the i-th entry of a sequence of `ListReply` snapshots.
- A failure while constructing the client counts as a failure of the call that follows it.

Every `panic` of the source is a failure value:

- a failed create or list call;
- the convergence timeout;
- `make` with a negative length or capacity;
- division or modulo by zero in `session`.

Wall-clock time is not modelled:

- A convergence sample is the number of task-list calls and sleeps its poll loop made.
- A create latency is a number carried by the call's answer.

The goroutines of the throughput benchmark run one after another here. The order in which their sends reach the consumer is an input: a schedule that names the sending worker of each arrival. The channel keeps each sender's order. Arrival `k` is therefore send number `Rank(schedule, k)` of worker `schedule[k]`.

## Model

| member | source | states |
|---|---|---|
| ProgressReport.Lines | service-create-bench.go:65-67 | after k items, exactly k lines have been printed, with counters 1..k in order and the fixed denominator; the same line shape is printed by the convergence benchmark at instance-scale-bench.go line 76 |
| InstanceScaleBench.RunningCount | instance-scale-bench.go:48-53 | the count accumulated over one snapshot never exceeds the number of tasks listed |
| InstanceScaleBench.RunningCountIsMatchingTasks | instance-scale-bench.go:48-53 | the per-poll count is the number of tasks whose service id is the new service's id and whose state is "running" |
| InstanceScaleBench.RunningCountAppend | instance-scale-bench.go:49-53 | counting a concatenated snapshot gives the sum of the counts of its parts |
| InstanceScaleBench.NonMatchingTaskIgnored | instance-scale-bench.go:50 | a task of another service, or in any state other than running, adds nothing to the count |
| InstanceScaleBench.FirstStop | instance-scale-bench.go:40-57 | the poll loop stops at the first poll that is not a miss (a miss lists the tasks and sees a count other than n), or at the budget 20*n when every poll misses |
| InstanceScaleBench.FirstStopUnique | instance-scale-bench.go:40-57 | any index preceded only by misses that is itself not a miss, or is the budget, is where the loop stops |
| InstanceScaleBench.ScaleResult | instance-scale-bench.go:34-63 | a converged poll has made one list call more than it slept, and at most 20*n list calls |
| InstanceScaleBench.ConvergesAtFirstHit | instance-scale-bench.go:40-60 | the poller succeeds after k+1 list calls and k sleeps iff poll k sees exactly n running tasks and every earlier poll listed and missed |
| InstanceScaleBench.TimesOutIffAllMiss | instance-scale-bench.go:40-63 | the poller fails with a timeout iff all 20*n polls miss; the error carries n and a deadline of 10*n seconds, while the budget is 20*n polls |
| InstanceScaleBench.ListErrorAtFirstFailure | instance-scale-bench.go:42-46 | a failed list call at poll k aborts the poller iff every earlier poll listed and missed |
| InstanceScaleBench.ZeroInstancesTimeOut | instance-scale-bench.go:40-63 | with n = 0 the loop body never runs and the timeout fires at once, with deadline 0 |
| InstanceScaleBench.OvershootIsNotConvergence | instance-scale-bench.go:55-57 | snapshots with more than n running tasks are never convergence, so such a run times out |
| InstanceScaleBench.Scale | instance-scale-bench.go:25-68 | the poll loop's result is ScaleResult. It makes at most 20*n list calls. A failed create makes none. Success, a list error at poll k and the timeout make k+1, k+1 and 20*n list calls, with k, k and 20*n sleeps |
| InstanceScaleBench.Bench | instance-scale-bench.go:70-77 | a negative request count fails at allocation. Otherwise the poller runs once per request, in order. Slot i holds request i's sample, and lines 1..i are printed. The first failing request aborts the run with its failure. The run finishes iff every request converges |
| ServiceCreateBench.Partition | service-create-bench.go:42-46 | there is one assignment per worker; every worker gets the same share, requests/concurrency; every worker's image is taken from the image list |
| ServiceCreateBench.UniformTotals | service-create-bench.go:42-48 | workers with equal shares u issue (number of workers)*u units in all, and u per worker using an image |
| ServiceCreateBench.PartitionTotal | service-create-bench.go:42-48 | the units issued total concurrency*(requests/concurrency), which is requests minus the remainder: at most requests (the channel's capacity, line 59) and more than requests - concurrency |
| ServiceCreateBench.RemainderDropped | service-create-bench.go:42-48 | ten requests over three workers issue nine creates |
| ServiceCreateBench.SlotCountBalanced | service-create-bench.go:44-46 | round robin over m slots puts c/m of the first c workers in slot k, plus one when k < c mod m |
| ServiceCreateBench.RoundRobinPrefix | service-create-bench.go:44-46 | with distinct images, the first c workers use images[k] exactly as often as round robin puts them in slot k |
| ServiceCreateBench.RoundRobinShares | service-create-bench.go:41-46 | image k goes to concurrency/m workers (one more when k < concurrency mod m), and gets that many times requests/concurrency create calls |
| ServiceCreateBench.FourWorkersTwoImages | service-create-bench.go:41-46 | four workers over two distinct images: each image gets two workers and 2*(requests/4) creates |
| ServiceCreateBench.Session | service-create-bench.go:39-53 | concurrency 0 (division) fails, and so does an empty image list once a first worker is set up (modulo). A negative concurrency starts no worker. Otherwise worker i is given images[i mod m] and requests/concurrency units |
| ServiceCreateBench.Worker | service-create-bench.go:19-37 | creates are issued in order, and each acknowledged one emits its latency. The first failed call stops the worker at that unit before it emits anything for it. With no failure the worker emits exactly max(units, 0) latencies |
| ServiceCreateBench.Rank | service-create-bench.go:59-63 | every arrival is a send its worker actually made: its rank is below that worker's number of sends |
| ServiceCreateBench.EverySendArrives | service-create-bench.go:35-63 | every send j of worker w is received at some position of the arrival order |
| ServiceCreateBench.ArrivesExactlyOnce | service-create-bench.go:35-63 | exactly-once delivery: each send j of worker w is received at one and only one arrival index, and the item received there is that send |
| ServiceCreateBench.ArrivalsDistinct | service-create-bench.go:35-63 | two arrivals from one worker are different sends, in the order that worker sent them |
| ServiceCreateBench.Arrivals | service-create-bench.go:59-63 | the channel delivers one item per schedule entry, as many as all workers sent together, and each arrival is an item its sender emitted |
| ServiceCreateBench.ScheduleLength | service-create-bench.go:35-63 | a schedule that interleaves the workers' sends has exactly as many entries as they sent together, so nothing is lost or invented |
| ServiceCreateBench.TotalLengthUniform | service-create-bench.go:42-48 | workers that each send u items send (number of workers)*u items together |
| ServiceCreateBench.Consume | service-create-bench.go:62-68 | after draining k items, current = k, len(timings) = k, timings equals the received items in arrival order, and progress lines 1..k have been printed against requests |
| ServiceCreateBench.Bench | service-create-bench.go:55-73 | a negative request count fails at channel allocation. Concurrency 0, or an empty image list with positive concurrency, fails in session. A negative concurrency collects nothing. Otherwise the run completes iff every unit of every worker is acknowledged, and any failure it reports is a failed create call, with its worker and unit. That unit is the worker's first failed call: every earlier unit of that worker, and every unit of every lower-numbered worker, was acknowledged. The run collects concurrency*(requests/concurrency) <= requests latencies, each the acknowledged latency of its sender's next send, with one progress line per item |

## Left out

- Docker client construction, `ServiceCreate` and `TaskList` are network I/O through a library that is not part of this model. Their answers are inputs. The service spec (image, args, replica count) sent with them is not modelled.
- Wall-clock time (`time.Now`, `time.Since`, `time.Sleep(500ms)`) is left out. Sleeps are counted, and latencies are given numbers.
- `stats.Mean`, `stats.Percentile`, the percentage and the millisecond conversion are floating point in an external library. They are left out, and so is the final summary.
- `fmt.Printf` formatting is left out. A progress line is modelled as its two counters.
- The `cli` `main` functions, including the missing-image usage check and the choice of `images[0]` in the convergence benchmark, are argument plumbing and are left out.
- Goroutines, `sync.WaitGroup`, and the blocking and close/drain handshake of `completeCh` and `doneCh` are left out. The workers run sequentially, and their interleaving is the schedule input.
- ServiceCreateBench.Bench: when several workers fail, the model reports the lowest-numbered one; in the source, whichever goroutine panics first ends the process. The progress lines printed before such a failure are not modelled either.
- InstanceScaleBench.Scale: `uint64` wrap-around of `20*n` is excluded by a precondition (`20*n` fits in a uint64) instead of being modelled.
- The `running` counter is a `uint64` in the source; it is bounded by the snapshot length, so its wrap-around is not modelled.
- Go truncates `requests / concurrency` toward zero and Dafny's division is Euclidean. The two agree on what is used: `requests` is never negative after the channel allocation, and for a negative `concurrency` the quotient is never used.
