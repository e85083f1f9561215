# Verified model of the CPU benchmark

The repository measures a CPU with self-checking workloads. A runner warms up and measures each workload on one
goroutine or on many, a stress mode loads every core until it is told to stop, and a scorer turns the measurements into
points. The tool trusts these algorithms: a run only counts if the workload's own `Verify` accepts its result. This
project models them in Dafny and proves what they are trusted for.

- **Sorting** (`benchmarks/sorting.go`) is imperative, over arrays. Quicksort sorts and permutes, and its comparisons
  and its recursion depth are bounded on every input. Ghost results count comparisons and nested calls; the bound on
  comparisons is met up to a constant by constant segments. `Permutations` and `Logarithms` support it.
- **Primes** (`benchmarks/primes.go`) is imperative. The sieve counts primes exactly and writes a cell once per prime
  divisor up to the cell's square root. `NumberTheory` holds smallest prime factors, Euclid's lemma and the count of
  prime divisors.
- **Runner** and **Results** (`runner/runner.go`, `results/results.go`). The multi-threaded measurement is a step
  system: the calling goroutine, the workers and the clock move one step at a time in any order. What is proved of a
  reachable state holds on every interleaving, and what is recorded is also stated as a function of the list of steps.
  The loops (`measureLoop`, merging, `Compute`) are methods.
- **Stress** (`stress/stress.go`) is a step system of the context, the stop watcher, CPU and memory workers, the status
  reporter and the caller, with 64-bit counters that wrap. The memory worker's pass over its buffer is a method.
- **Http**, **Messages**, **Routing**, **AccessLog**, **ApacheLike** (`benchmarks/apache_like.go`) cover request and
  header parsing, printing of requests and responses, routing, the access log line and a reader for it, and the request
  loop. `Text` holds the byte-string searches they use.
- **Matrix** (`benchmarks/matrix.go`) is generic in the element type, so that one proof covers 64-bit integers and
  floats: nothing is assumed of the operation `s + x*y`.
- **PhpLike** (`benchmarks/php_like.go`). Loops over Go maps pick keys in an arbitrary order; the checksum comes out the
  same.
- **Scoring** (`scoring/scoring.go`) is over real numbers.

`CrossCheck` in each workload module is the situation at the end of a measurement: the result of one instance is handed
to the `Verify` of a second instance that was set up separately (`runner/runner.go:142`).

Some properties one might expect are false of the code. They are stated with the exact condition under which they hold:

- A run with samples can be reported as unverified. `Verify` sees worker 0's last result, and worker 0 may have come
  too late to take a sample: the run is verified exactly if worker 0's first look at the clock came before the deadline
  and its last result is accepted (`Runner.VerifiedIffFirstCheckInTime`, with the run `Runner.UnverifiedRun`).
- Among 64-bit matrices the matrix `Verify` accepts only products exactly for sizes 1 and 64
  (`Matrix.AcceptsOnlyProductsIff`).
- A faster benchmark never costs points exactly if its P99 does not become zero or negative
  (`Scoring.FasterIsNoWorseIff`).
- A machine k times the reference scores 1000k in total exactly if no category is empty
  (`Scoring.KTimesReferenceScores`).
- The score of a mode is independent of the order of the results exactly if results that share a name earn the same
  points (`Scoring.ModeIgnoresOrderIff`); with distinct names it always is (`Scoring.DistinctNamesIgnoreOrder`).
- The first matching route is the longest one on every path exactly if the table is well ordered
  (`Routing.FirstIsLongestIffWellOrdered`).
- The access log line reads back as what it logs exactly if no quote occurs in the request line and the agent, and the
  status line exactly if no space occurs in the protocol (`AccessLog.LogReadsIff`, `ApacheLike.StatusLineReadsIff`).
- A scan of header lines succeeds exactly under a condition on the buffer that does not mention the scan
  (`Http.ScanEnds`).

## Model

| member | source | states |
|---|---|---|
| Sorting.MedianOfThree | benchmarks/sorting.go:86-98 | the middle cell ends up between the two outer ones, so a[lo] is at most the pivot; three comparisons; a permutation of the range |
| Sorting.Divide | benchmarks/sorting.go:67-72 | one round of the partition loop keeps "at most the pivot, then above it" and a permutation |
| Sorting.Partition | benchmarks/sorting.go:63-74 | left part at most the pivot, right part above it, left part never empty; exactly hi - lo + 3 comparisons; a constant segment puts the pivot last |
| Sorting.InsertedIsRearranged | benchmarks/sorting.go:100-110 | moving a cell left inside a range permutes the range only |
| Sorting.MoveLeft | benchmarks/sorting.go:102-109 | the cell stops right of the last cell not above it, and exactly the larger cells move right; comparisons counted exactly |
| Sorting.InsertionSort | benchmarks/sorting.go:100-110 | sorts the range, permutes it, within n(n-1)/2 comparisons; n - 1 on a constant range |
| Sorting.BudgetSplits | benchmarks/sorting.go:61-81 | a partition and the budgets of both sides fit in the budget of the whole, with nothing to spare when the right side is empty |
| Sorting.OrderKept | benchmarks/sorting.go:75-81 | sorting one side of a partition cannot spoil the order already reached elsewhere |
| Sorting.Narrow | benchmarks/sorting.go:62-82 | one turn of the outer loop: only the smaller side is recursed into, the rest stays to be ordered, the comparison budget and the logarithmic depth are kept |
| Sorting.Quicksort | benchmarks/sorting.go:61-84 | every range ends sorted and permuted with everything outside untouched; at most n(n-1)/2 + 3n comparisons; depth at most logarithmic; a constant range of 17 cells or more costs the bound less 171 with depth at most 1 |
| Sorting.BoundsInClosedForm | benchmarks/sorting.go:61-84 | the comparison bound is (n(n-1) + 6n)/2 and the depth at most log2(n) |
| Sorting.Sorter.Setup | benchmarks/sorting.go:26-34 | non-positive sizes become the medium size; the buffer has that size |
| Sorting.Sorter.Run | benchmarks/sorting.go:36-44 | the result is the numbers drawn, sorted, whatever the buffer held |
| Sorting.Sorter.Verify | benchmarks/sorting.go:46-57 | accepts exactly the non-decreasing lists of the configured length |
| Sorting.CrossCheck | runner/runner.go:134-154 | another instance accepts every result of Run |
| NumberTheory.SmallPrimeFactor | benchmarks/primes.go:41-47 | every number from 2 on has a prime factor; a composite has one whose square is at most the number |
| NumberTheory.Euclid | benchmarks/primes.go:41-47 | a prime that divides a product divides a factor; the write bound rests on it |
| NumberTheory.FewPrimeDivisors | benchmarks/primes.go:41-47 | a number has at most log2 of itself prime divisors |
| Primes.UnstruckIsPrime | benchmarks/primes.go:41-47 | a cell is unmarked when its turn comes, and after the last round, exactly if it is prime |
| Primes.FewStrikers | benchmarks/primes.go:41-47 | at most log2(c) rounds write cell c |
| Primes.NextMultiple | benchmarks/primes.go:43-45 | stepping by i from i*i meets every multiple of i and no other cell |
| Primes.Strike | benchmarks/primes.go:43-45 | the inner loop writes each cell that i strikes exactly once, no other cell, and never leaves n + i |
| Primes.Round | benchmarks/primes.go:41-47 | after the round for i each cell has been written once per prime up to i that strikes it |
| Primes.WorkBounded | benchmarks/primes.go:41-47 | exact write counts give at most log2(c) writes per cell and n log2(n) in all |
| Primes.CountUnmarked | benchmarks/primes.go:48-53 | counting the unmarked cells counts the primes up to n |
| Primes.Sieve | benchmarks/primes.go:41-54 | the result is the number of primes up to n; cell c is written once per prime divisor p of c with p*p <= c, at most log2(c) times; the inner loop runs at most n log2(n) times; loop values stay within n + 2 sqrt(n) + 1 |
| Primes.PiReference | benchmarks/primes.go:68-88 | the number of primes up to n for every n, 0 below 2 |
| Primes.PrimeCounter.Setup | benchmarks/primes.go:26-32 | non-positive sizes become the medium size |
| Primes.PrimeCounter.Run | benchmarks/primes.go:34-55 | the number of primes up to n whatever an earlier run left in the array |
| Primes.PrimeCounter.Verify | benchmarks/primes.go:57-66 | compares with the table where it lists the size and with the true number of primes elsewhere |
| Primes.CrossCheck | runner/runner.go:134-154 | another instance accepts a run's result exactly if the table, where it lists the size, is right |
| Results.SortedIsUnique | results/results.go:32 | there is one sorted arrangement of a list, so percentiles do not depend on the sort |
| Results.PercentileWithinShare | results/results.go:24-42 | the p-th percentile v of n durations satisfies (n(100-p) + p) v <= 100 times their sum |
| Results.PercentilesRise | results/results.go:33-42 | a higher percentile is never below a lower one |
| Results.PercentileOfPermutation | results/results.go:24-42 | percentiles do not depend on the order of the samples |
| Results.AtRankIsUnique | results/results.go:36-42 | counting the samples on either side determines the percentile |
| Results.PercentileIsAtRank | results/results.go:36-42 | the position the code reads is the one with exactly that many samples below and at it |
| Results.PercentileOf | results/results.go:36-42 | the cell read from the sorted slice is the value at the percentile's rank; 0 if there is none |
| Results.Compute | results/results.go:24-34 | for p in 50, 95, 99 the value v returned for n unsorted samples has at most (n-1)p/100 samples below it and more than (n-1)p/100 at or below it; 0 for no samples |
| Runner.NormalizeIsUsable | runner/runner.go:41-50 | every configuration becomes usable, exactly the usable ones are kept, and the defaults are 10 s, 2 s and all CPUs |
| Runner.StepKeepsInv | runner/runner.go:87-119 | every step of every goroutine keeps the measurement invariant |
| Runner.ExecKeepsInv | runner/runner.go:87-131 | the invariant holds after every interleaving |
| Runner.TimeBudget | runner/runner.go:102-131 | in every interleaving the sample durations are non-negative and sum to at most threads times the total duration |
| Runner.LatencyBudget | runner/runner.go:102-154 | in every interleaving (n+1) median <= 2 threads T, (n+19) P95 <= 20 threads T, (n+99) P99 <= 100 threads T |
| Runner.NothingLost | runner/runner.go:121-128 | concatenating the workers' lists gives each sample taken exactly once |
| Runner.SamplesConserved | runner/runner.go:102-128 | each slot holds its own worker's samples in order, and the merged list is a permutation of all samples taken, durations included |
| Runner.TakenAt | runner/runner.go:156-163 | read off the list of steps, the sample of each Run goes from the worker's last reading of the start time to the end of that Run |
| Runner.SamplesAreTimed | runner/runner.go:102-131 | in every interleaving the samples taken are exactly those, one for each Run that ended; a worker's slot holds the result of its last Run; the total duration is the time from the start of measuring to the join |
| Runner.WarmupBarrier | runner/runner.go:87-108 | no sample starts before every worker has warmed up past the warmup deadline, which is at least the configured warmup after the call |
| Runner.OneLateSampleEach | runner/runner.go:106-119 | a worker's samples are disjoint and inside the window, all but its last end before the deadline, and the total duration is at least the configured one |
| Runner.ProcsRestored | runner/runner.go:52-53 | GOMAXPROCS is the thread count during the run and the old value after it |
| Runner.NoDeadlock | runner/runner.go:87-118 | until Run returns some goroutine can move |
| Runner.MeasurementEnds | runner/runner.go:108-131 | past the deadline at most three steps for each worker and two joins follow in any interleaving, clock ticks aside |
| Runner.VerifiedIffFirstWorkerSampled | runner/runner.go:129-142 | worker 0's result slot is filled exactly if it took a sample, and the verdict is Verify on that result, whatever the other workers did |
| Runner.VerifiedIffFirstCheckInTime | runner/runner.go:129-163 | in every interleaving a run is verified exactly if worker 0's first comparison with the deadline came in time and its last result is accepted |
| Runner.UnverifiedRun | runner/runner.go:129-142 | a run of two workers that takes a sample and has no result to verify |
| Runner.MergeSamples | runner/runner.go:121-128 | the loop concatenates the slots in order |
| Runner.ThroughputTimesLatency | runner/runner.go:134-154 | in every interleaving the reported rate times the reported median, in seconds, is at most twice the threads |
| Runner.Finalize | runner/runner.go:134-154 | iterations, the three percentiles by rank, the rate times the duration (0 for no time), and the verdict of Verify on the last result |
| Runner.ReportRun | runner/runner.go:119-131 | what Run returns after any interleaving: the report on exactly the durations of the samples taken, at least the configured duration, and all three percentiles within the time budget |
| Runner.MeasureLoop | runner/runner.go:156-163 | on any monotone clock: the samples are the paired clock readings, disjoint and in order, at most one ends past the deadline, and the last result is that of the last iteration |
| Runner.WarmUp | runner/runner.go:65-68 | the warmup loop ends at the first reading at or past its deadline |
| Runner.RunSingle | runner/runner.go:61-78 | the single-threaded path reports on the clock readings paired from the reading after the warmup on, meets the same budget for one thread, and is verified exactly if an iteration was made and its last result is accepted |
| Stress.NormalizeIsClosure | stress/stress.go:43-65 | every configuration becomes usable and exactly the usable ones are kept; the defaults are all CPUs, half of them but at least 1, 256 MiB and 1 s |
| Stress.StepKeepsInv | stress/stress.go:83-159 | every step of every goroutine keeps the accounting invariant |
| Stress.ExecKeepsInv | stress/stress.go:83-159 | the invariant holds after every interleaving |
| Stress.ExactAccounting | stress/stress.go:147-158 | on return CPUOps is 2^14 per batch ended in the list of steps and MemBytes twice the buffer's whole words per pass ended, modulo 2^64; all workers and the reporter have left; GOMAXPROCS is restored |
| Stress.OneLateBatchEach | stress/stress.go:173-229 | after the step that sets the stop flag a worker ends at most one more batch, which is counted |
| Stress.StatusLinesAreExact | stress/stress.go:122-145 | each status line shows the operations published before its tick and the bytes published before the line; there is a reporter exactly for a writer and a positive interval, until the context is done |
| Stress.ExitsOnPoll | stress/stress.go:173-215 | a worker has left exactly if it polled the flag after it was set |
| Stress.SnapshotsRise | stress/stress.go:132-143 | unless a counter has wrapped, the status lines never show its operations or bytes falling, nor more than it holds |
| Stress.ReporterCanLeave | stress/stress.go:130-149 | once the workers are joined the context is done, so the reporter is not waited for in vain |
| Stress.NoDeadlock | stress/stress.go:83-159 | once the context is done, something other than a further status tick can happen until Run returns |
| Stress.StepUsesUp | stress/stress.go:83-159 | with the stop flag set every step but a status line uses up one of the steps left |
| Stress.ShutdownIsBounded | stress/stress.go:83-159 | with the stop flag set at most 2 (workers) + 6 further steps happen, status lines aside, in any interleaving |
| Stress.MemPass | stress/stress.go:217-225 | the buffer is rewritten word by word from its old contents, then read back in reverse; the bytes touched are what is published |
| Stress.MemWorker | stress/stress.go:212-229 | as many passes as polls before the first that sees the flag, and all their bytes counted modulo 2^64 |
| Text.AtoiItoa | benchmarks/apache_like.go:97 | a printed length is read back as the length |
| Http.FoldProperties | benchmarks/apache_like.go:188-198 | folding a letter is idempotent, keeps hyphens apart from all else, and forgets exactly the case |
| Http.CanonicalIffFolded | benchmarks/apache_like.go:186-198 | the canonical name is the one with the same letters, none lower case at the start or after a hyphen and none upper case elsewhere |
| Http.CanonicalIsIdempotent | benchmarks/apache_like.go:186-198 | canonicalising a header name twice changes nothing |
| Http.CanonicalByWords | benchmarks/apache_like.go:186-198 | the words between hyphens are folded independently |
| Http.CanonicalIffSameName | benchmarks/apache_like.go:186-198 | canonical names agree exactly if the raw names agree up to ASCII case (RFC 9110, section 5.1) |
| Http.HeadGoesOn | benchmarks/apache_like.go:171-180 | before a non-empty line the first CRLF CRLF cannot have passed |
| Http.ScanEnds | benchmarks/apache_like.go:162-210 | every buffer has exactly one end of head, and the scan succeeds exactly if there is a first line, every line of the head has a colon, and the head ends with an empty line or with the buffer at a line end; the offset is just past the first CRLF CRLF, or the buffer's length |
| Http.HeadersOfLines | benchmarks/apache_like.go:170-209 | the headers recorded are those of all consecutive lines, one each and in order, up to where the scan comes to rest: at the empty line or buffer end the offset is just past, or at a line without end or colon if it fails |
| Messages.ScanPrinted | benchmarks/apache_like.go:162-210 | printed header lines, an empty line and a body are scanned back to the headers and leave the body |
| Messages.MessageIsFramed | benchmarks/apache_like.go:162-210 | any message printed from CRLF-free parts is parsed into its headers, the offset leaving exactly the body |
| Messages.RequestLineParses | benchmarks/apache_like.go:142-158 | a printed request line is parsed back into method, path and protocol |
| Messages.ParsesIffPrinted | benchmarks/apache_like.go:142-158 | the parser accepts exactly the buffers that start with a printed request line, and returns the parts printed |
| Messages.RequestRoundTrip | benchmarks/apache_like.go:142-210 | parsing undoes printing of a request: line, headers under canonical names, body |
| Messages.ExactRequestRoundTrip | benchmarks/apache_like.go:142-210 | with canonical names and values without leading blanks the header list comes back exactly |
| Messages.ParsedPartsHaveNoCrlf | benchmarks/apache_like.go:142-158 | the parts of a parsed request line can be printed again |
| Messages.RecordedAsPrinted | benchmarks/apache_like.go:186-208 | a canonical name and a value with no leading blank are recorded unchanged |
| Routing.RouteForIsFirst | benchmarks/apache_like.go:221-234 | the route taken is the first that equals the path, or begins it byte for byte if it is a prefix route; the fallback if none does |
| Routing.MatchRoute | benchmarks/apache_like.go:221-234 | the loop takes that route |
| Routing.FirstIsLongestIffWellOrdered | benchmarks/apache_like.go:221-234 | the first match is the longest on every path exactly if no prefix route comes before a longer one it swallows, unless that one is already covered |
| Routing.DefaultRoutesWellOrdered | benchmarks/apache_like.go:269-292 | the default table is well ordered |
| Routing.DefaultRoutesMatch | benchmarks/apache_like.go:269-292 | every path with a leading slash hits the default table, never the fallback, at its longest match |
| Routing.LookupHeader | benchmarks/apache_like.go:212-219 | the value of the first header of that name, or nothing |
| Routing.LookupIgnoresCase | benchmarks/apache_like.go:212-219 | looking up a canonical name finds the first header sent under it in any case |
| ApacheLike.ResponseHeadersRecorded | benchmarks/apache_like.go:91-99 | the parser records the five response headers as they were written, the content type without leading blanks |
| ApacheLike.ResponseIsFramed | benchmarks/apache_like.go:84-100 | for any request that parses and any CRLF-free content type, the response is parsed back into its five headers, leaves exactly the body, and the Content-Length looked up in it reads as the body's length (RFC 9112, sections 4 and 6.2) |
| ApacheLike.StatusLineReadsIff | benchmarks/apache_like.go:84-90 | the status line of the response reads as protocol, decimal code and text exactly if there is no space in the protocol |
| ApacheLike.StatusLines | benchmarks/apache_like.go:236-257 | the status line of each default route, and those of the other known codes, word for word |
| ApacheLike.BuiltRequestParses | benchmarks/apache_like.go:318-334 | a built request gives back its line, host, agent and body |
| ApacheLike.BuiltRequestsParse | benchmarks/apache_like.go:294-337 | every request of the benchmark parses and reads back as its method, path, host, agent and body |
| ApacheLike.BuildRequest | benchmarks/apache_like.go:313-333 | the pieces written one after another make up the request line, the seven or nine header lines, the empty line and the body |
| ApacheLike.BuildRequests | benchmarks/apache_like.go:310-336 | the i-th request built parses back into the i-th method, path, host, agent and body, for every i |
| ApacheLike.BuiltRequestsAreHashed | benchmarks/apache_like.go:61-126 | on the built requests the run never gives up |
| AccessLog.TwoDigitIsTwoDigits | benchmarks/apache_like.go:259-267 | two digits are written exactly below 100, and they read as the number |
| AccessLog.LogFields | benchmarks/apache_like.go:102-120 | without quotes in what it quotes the log line splits at its separators into address, date, request line, status, size, referer and agent |
| AccessLog.LogReadsIff | benchmarks/apache_like.go:102-120 | the log line reads back as the request line, the status, the body's length, the agent, the seconds i mod 60 and the octet i mod 256 exactly if there is no quote in the request line and the agent |
| ApacheLike.Server.Setup | benchmarks/apache_like.go:45-59 | non-positive sizes become the medium size; requests, routes and expected checksum are in place |
| ApacheLike.Server.CanonicalName | benchmarks/apache_like.go:186-198 | the loop with its upper flag leaves the canonical name in the buffer |
| ApacheLike.Server.TrimmedValue | benchmarks/apache_like.go:200-204 | the loop drops exactly the leading blanks |
| ApacheLike.Server.ParseHeaders | benchmarks/apache_like.go:162-210 | the loop with its reused lists and buffers records what the scan records, also when it fails half way, and returns its offset and verdict |
| ApacheLike.Server.WriteResponse | benchmarks/apache_like.go:84-100 | the buffer holds the status line, the five headers, an empty line and the body, whatever it held before |
| ApacheLike.Server.WriteLogLine | benchmarks/apache_like.go:102-120 | the pieces written one after another make up that line, whatever the buffer held |
| ApacheLike.Server.Serve | benchmarks/apache_like.go:63-124 | one request contributes a function of itself, its number and the routes; malformed requests end the run |
| ApacheLike.Server.Run | benchmarks/apache_like.go:61-126 | the checksum depends on the requests and routes alone, not on leftovers in the buffers; 0 at the first malformed request |
| ApacheLike.Server.Verify | benchmarks/apache_like.go:128-134 | accepts exactly that checksum |
| ApacheLike.CrossCheck | runner/runner.go:134-154 | another instance accepts every result of Run |
| Matrix.FlatInjective | benchmarks/matrix.go:82-84 | different cells have different flat positions |
| Matrix.AddTerms | benchmarks/matrix.go:82-85 | the innermost loop gives row i its k-th terms and leaves every other row |
| Matrix.Multiply | benchmarks/matrix.go:79-88 | the in-place i-k-j product adds to every cell its whole dot product, in the order of k |
| Matrix.DotRow | benchmarks/matrix.go:90-96 | the row-times-column sum in the order of k |
| Matrix.ClearedGivesProduct | benchmarks/matrix.go:161-178 | from a cleared buffer every cell is exactly what the dot product computes, in any arithmetic |
| Matrix.AcceptsOnlyProductsIff | benchmarks/matrix.go:45-71 | among 64-bit matrices Verify accepts nothing but the product exactly for sizes 1 and 64 |
| Matrix.WrongAccepted | benchmarks/matrix.go:50-71 | for every other size a wrong 64-bit matrix that is accepted |
| Matrix.Bench.Setup | benchmarks/matrix.go:26-36 | non-positive sizes become the medium size; the inputs are filled by flat position |
| Matrix.Bench.Run | benchmarks/matrix.go:38-43 | the result is the product, whatever the buffer held |
| Matrix.Bench.Verify | benchmarks/matrix.go:128-153 | accepts exactly if the length, the first and last cell and, for size 64, all cells agree |
| Matrix.CrossCheck | runner/runner.go:134-154 | another instance accepts every result of Run, for ints and floats |
| Matrix.DotModulo | benchmarks/matrix.go:79-96 | machine sums are the exact sums modulo 2^64, from any starting cell |
| Matrix.NoOverflow | benchmarks/matrix.go:73-96 | on the fill pattern every partial sum is exact and at most 56 per term |
| PhpLike.LessIsTransitive | benchmarks/php_like.go:141 | the order of sorted strings is transitive |
| PhpLike.LessIsTotal | benchmarks/php_like.go:141 | the order of sorted strings is total |
| PhpLike.LessIffBefore | benchmarks/php_like.go:141 | the order of sorted strings is the lexicographic one by bytes |
| PhpLike.ListingIsUnique | benchmarks/php_like.go:137-141 | two sorted listings of the same keys are equal, whatever order they were collected in |
| PhpLike.SortStrings | benchmarks/php_like.go:141 | ascending, with the same keys |
| PhpLike.TagsKeepFields | benchmarks/php_like.go:99-108 | storing tags never overwrites the locale and action that are looked up after it |
| PhpLike.ScratchByKey | benchmarks/php_like.go:87-108 | each of the seven entries written holds its own field of the request, and the rest of the payload is kept |
| PhpLike.TagsByKey | benchmarks/php_like.go:99-101 | tag i is found under its number |
| PhpLike.HexIsInjective | benchmarks/php_like.go:115-120 | two signatures look alike exactly if their first bytes agree |
| PhpLike.HexReads | benchmarks/php_like.go:114-120 | the hexadecimal text reads back as the bytes, high digit first |
| PhpLike.Page.CopyPayload | benchmarks/php_like.go:90-92 | in any iteration order the cleared map becomes the payload |
| PhpLike.Page.RebuildScratch | benchmarks/php_like.go:87-108 | in any iteration order and with any leftovers, the map is a function of the request |
| PhpLike.Page.SortedKeys | benchmarks/php_like.go:137-141 | in any iteration order the key list is the one sorted listing |
| PhpLike.Page.RenderHead | benchmarks/php_like.go:122-131 | the head of the page, whatever the buffer held |
| PhpLike.Page.Render | benchmarks/php_like.go:122-151 | the page is a function of the request |
| PhpLike.Page.SessionSignature | benchmarks/php_like.go:114-120 | the hexadecimal form of the first eight bytes |
| PhpLike.Page.FillHeaders | benchmarks/php_like.go:153-160 | exactly the four response headers, whatever was there |
| PhpLike.Page.Serve | benchmarks/php_like.go:80-180 | one request contributes a function of its body and the key; a body that cannot be decoded, or a response that cannot be encoded, ends the run |
| PhpLike.Page.Run | benchmarks/php_like.go:77-182 | the checksum is the same for any iteration orders and any leftovers; 0 on a failure |
| PhpLike.Page.Verify | benchmarks/php_like.go:184-190 | accepts exactly that checksum |
| PhpLike.CrossCheck | runner/runner.go:134-154 | another instance accepts every result of Run |
| Scoring.Mean | scoring/scoring.go:132-141 | the mean, 0 for no values |
| Scoring.ComputeMode | scoring/scoring.go:143-199 | the loops over results and names give each category the mean over the results present, the last result of a name counting, and the weighted total |
| Scoring.Score | scoring/scoring.go:201-215 | fails exactly for unknown profiles; an empty profile is reported as default; a machine k times the table's single-threaded values scores 1000k throughout in the one mode, one k times its multi-threaded values in the other |
| Scoring.ProfilesAreBalanced | scoring/scoring.go:88-99 | the weights of every profile are positive and sum to one |
| Scoring.MeanBetween | scoring/scoring.go:132-141 | a category lies between the least and the greatest of its points |
| Scoring.TotalBetweenCategories | scoring/scoring.go:189 | the total lies between any bounds on the four categories |
| Scoring.KTimesReferenceScores | scoring/scoring.go:101-199 | on a machine k times the reference the categories that score 1000k are exactly those with a result, and the total is 1000k exactly if there is none without |
| Scoring.KTimesReferenceMachine | scoring/scoring.go:48-69 | with all eight results every category and the total are 1000k, for every profile and mode; the label is "Referenz" exactly for 0.9 <= k < 1.1 |
| Scoring.ReferenceMachine | scoring/scoring.go:48-69 | in each mode, with the numbers of that mode's column written out, a machine k times the reference scores 1000k in every category and in total |
| Scoring.SingleInteger | scoring/scoring.go:143-187 | the mean of the two integer benchmarks' rates over their single-threaded reference rates, times 1000, with the numbers written out |
| Scoring.SingleMemory | scoring/scoring.go:143-187 | the mean of the five memory benchmarks' rates over their single-threaded reference rates, times 1000, with the numbers written out |
| Scoring.SingleThroughput | scoring/scoring.go:143-187 | the mean of the four throughput benchmarks' rates over their single-threaded reference rates, times 1000, with the numbers written out |
| Scoring.SingleLatency | scoring/scoring.go:143-187 | the mean of all eight single-threaded reference P99s over the measured ones, times 1000, with the numbers written out |
| Scoring.MultiInteger | scoring/scoring.go:143-187 | the mean of the two integer benchmarks' rates over their multi-threaded reference rates, times 1000, with the numbers written out |
| Scoring.MultiMemory | scoring/scoring.go:143-187 | the mean of the five memory benchmarks' rates over their multi-threaded reference rates, times 1000, with the numbers written out |
| Scoring.MultiThroughput | scoring/scoring.go:143-187 | the mean of the four throughput benchmarks' rates over their multi-threaded reference rates, times 1000, with the numbers written out |
| Scoring.MultiLatency | scoring/scoring.go:143-187 | the mean of all eight multi-threaded reference P99s over the measured ones, times 1000, with the numbers written out |
| Scoring.TotalOfProfile | scoring/scoring.go:88-99 | which weight each profile gives to each category in the total |
| Scoring.LabelBands | scoring/scoring.go:115-130 | each of the six labels stands for exactly its band of totals |
| Scoring.LatencyPointsRiseIff | scoring/scoring.go:108-113 | a lower P99 never costs points exactly if it does not fall from positive to nonpositive |
| Scoring.BetterScoresHigher | scoring/scoring.go:143-199 | every category and the total are monotone in operations per second and antitone in positive P99s |
| Scoring.FasterIsNoWorseIff | scoring/scoring.go:143-199 | lowering one P99 keeps the total from falling exactly if the P99 does not become nonpositive |
| Scoring.LastCounts | scoring/scoring.go:144-149 | of several results with one name the last is scored |
| Scoring.NamesIgnoreOrderIff | scoring/scoring.go:144-149 | the results looked up by name depend on their order exactly if two different ones share a name |
| Scoring.OrderIsIrrelevantIff | scoring/scoring.go:143-187 | the category scores are independent of the order of the results exactly if results that share a name earn the same points in every category the name feeds |
| Scoring.ModeIgnoresOrderIff | scoring/scoring.go:143-199 | the whole mode score, total and label included, is independent of the order on exactly that condition |
| Scoring.DistinctNamesIgnoreOrder | scoring/scoring.go:143-199 | with distinct names no order changes any category, the total or the label |

## Left out

- Command line, signals, status printing, table and JSON output, `/proc` probing and the install script: formatting and
  I/O. Nothing is claimed of `formatDuration` (`output/table.go:110-119`).
- `benchmarks/hashing.go` and `benchmarks/json.go`: wrappers over library functions.
- Library internals. FNV, HMAC, JSON and `html.EscapeString` are arbitrary deterministic functions; `sort.Slice` and
  `sort.Strings` are taken by their contracts, which verified code discharges. JSON encoding is a function of the
  response as a value because `encoding/json` sorts map keys.
- The entries of `expectedPrimes` (`benchmarks/primes.go:11-15`) are a parameter; they are not recomputed.
- IEEE rounding. Scores and rates are real numbers. Percentile positions are the exact floor of (n - 1) p with p in
  hundredths; the code multiplies in float64 (`results/results.go:40`). Float matrices use an arbitrary operation for
  s + x*y that is the same in the product and in `Verify`; a compiler that fuses it in one and not in the other is
  outside the model. Float comparison in `Verify` is an arbitrary relation.
- Floating point values inside the CPU stress worker, the sink variables, garbage collection and real time.
- Bytes are modelled by characters. Indices and sizes are unbounded; 64-bit wrap-around is modelled for the integer
  matrix and the stress counters.
- Random numbers are a parameter of `Sorting.Sorter.Run`, clock readings one of `Runner.MeasureLoop` and
  `Runner.RunSingle`, and polls of the stop flag one of `Stress.MemWorker`.
- Results of unexpected dynamic type, which `Verify` rejects by a type assertion; `Verify` takes values of the right
  type here.
- Runner: a worker writes its two result slots in one step, a loaded clock and the comparison with it are one step,
  and samples carry the two clock readings they are the difference of. Names and tags are left out.
- Runner.MeasureLoop and Runner.RunSingle: the clock is assumed to pass the deadline at some reading, without which
  the loops do not end.
- Stress: the arithmetic of a CPU batch and the initial page touching are left out, and a batch is one step of the
  step system; launching a goroutine and adding it to the wait group are one step.
- Stress.MemPass: the three 64-bit operations on words are arbitrary functions.
- Sorting.Quicksort: ranges with hi0 < lo0 - 1, which no caller passes, are outside its precondition.
- PhpLike.Page.RebuildScratch: locales shorter than two bytes, on which the code panics
  (`benchmarks/php_like.go:103-105`), and signatures shorter than eight bytes are outside its precondition; the requests
  are a parameter, so the generator and the sizes are left out.
- ApacheLike.Server.ParseHeaders: the rest of RFC 9110 and RFC 9112. The code trims leading blanks only, accepts any
  byte in a name, and writes a body for HEAD too.
- Matrix.NoOverflow: needs 56 n below 2^63, which every matrix that fits in memory meets.
- Runner.NoDeadlock and Stress.NoDeadlock: that the scheduler runs a goroutine that can move is not modelled.
