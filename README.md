# net-watcher round-trip statistics, in Dafny

net-watcher pings one endpoint over and over. It keeps a single `Statistics`
record: the attempt count, the latest round-trip time (Value, in ms), and its
Min, Max and a running "average". This project models that record and the two
updates `ping` makes to it. It also models the two start-up rules that choose
the endpoint to watch and the hostname to tag measurements with.

- `wrappers.dfy`, module `Wrappers`: `Option`. A reply that did not arrive, an
  unset environment variable, or a hostname file that would not open is `None`.
- `stats.dfy`, module `Stats`: the `Statistics` class with the fields of the Go
  struct. Its constructor builds the zeroed record. `Attempt` is `Count++`.
  `OnRecv` is the reply callback. `NextMin`, `NextMax` and `NextAvg` state each
  per-reply update on its own. `Valid()` is the record's invariant:
  `0 <= count` and `min <= value <= max`. The zeroed record already satisfies it.
- `folds.dfy`, module `Folds`: Min, Max and Avg after a run of replies, written
  as left folds of the per-reply updates. Lemmas say what those folds are:
  - With every reply strictly positive, Min is the smallest reply; with no
    reply negative, Max is the largest.
  - Avg is exponential smoothing, with a closed form. It is not an
    arithmetic mean.
- `config.dfy`, module `Config`: `GetEndpoint` (argument, then
  `WATCH_ENDPOINT`, then `www.google.com`). `ScanHostname` is the
  line-by-line scan of the hostname file, proved equal to the selection rule
  `SelectHostname`.
- `monitor.dfy`, module `Monitor`: one pass of the loop (`Ping`), a finite run
  of passes (`Watch`), and the whole process from start-up (`Run`). The pinger
  is abstracted so that each attempt yields an optional round-trip time in
  seconds.

On an empty line, main.go:144 warns that it is using the OS hostname. The
code still keeps the empty line, because line 143 declares a new `hostname`
that shadows the outer one. This model follows the code.

## Model

| member | source | states |
|---|---|---|
| `Stats.NextMin` | main.go:87-90 | With Min at the unset value 0, the reply becomes Min. Otherwise Min becomes the smaller of Min and the reply, and never rises. |
| `Stats.NextMax` | main.go:92-95 | The new Max is at least the old Max and at least the reply, and is one of them. |
| `Stats.NextAvg` | main.go:97-98 | The new Avg halves its distance to the latest reply, so it lies between the old Avg and the reply. |
| `Stats.Statistics.constructor` | main.go:30-37 | The record starts zeroed: Count, Min, Max, Avg and Value are 0, the labels are empty, and Start is the given time. The invariant holds. |
| `Stats.Statistics.Attempt` | main.go:104 | Count rises by exactly 1. Nothing else changes. |
| `Stats.Statistics.OnRecv` | main.go:84-99 | Value becomes the RTT in seconds times 1000. Min, Max and Avg follow their update rules, and Min <= Value <= Max afterwards. Max never falls, and a nonzero Min never rises. Count, Start, Hostname, Endpoint and Address are untouched. |
| `Folds.MinIsSmallestSample` | main.go:84-99 | Start from the zeroed record and feed it strictly positive replies. Min is then one of the replies, and no reply is smaller. |
| `Folds.MaxIsLargestSample` | main.go:92-95 | Start from the zeroed record and feed it non-negative replies. Max is then one of the replies, and no reply is larger. |
| `Folds.AvgClosedForm` | main.go:98 | After n replies, the recurrence Avg = (Avg + Value) / 2 gives a weight of 1/2^n to the starting Avg. Counting replies from 0, the k-th gets weight 1/2^(n-k): the latest weighs 1/2, the one before 1/4, and so on. |
| `Folds.AvgBelowMax` | main.go:92-98 | Start from the zeroed record with non-negative replies. Avg stays between 0 and Max, and is strictly below Max once Max is positive. |
| `Folds.ZeroSampleIsForgotten` | main.go:88-90 | From any non-negative Min and any run of non-negative replies, a reply of exactly 0 ms drops Min to its unset value 0. The next positive reply then becomes Min, even when it is larger than every earlier reply. |
| `Folds.SampleRun` | main.go:84-99 | Replies of 10, 5 and 20 ms leave Min 5, Max 20 and Avg 12.5. After the first reply alone, Avg is 5, which is below Min. |
| `Config.GetEndpoint` | main.go:152-165 | The endpoint is the first argument, the value of WATCH_ENDPOINT, or the default. |
| `Config.ArgumentFirst` | main.go:154-156 | With a command-line argument present, the endpoint is that argument, whatever the environment holds. |
| `Config.EnvironmentSecond` | main.go:159-161 | Without an argument, a set WATCH_ENDPOINT is the endpoint, even when it is empty. |
| `Config.DefaultLast` | main.go:163-164 | Without an argument and without WATCH_ENDPOINT, the endpoint is www.google.com. |
| `Config.SelectHostname` | main.go:126-148 | The hostname is either the OS hostname or one of the lines of the file. |
| `Config.ScanHostname` | main.go:126-148 | Scanning the file line by line ends on exactly the hostname that the selection rule picks. |
| `Config.HostnameFallback` | main.go:127-135 | If the file cannot be opened or has no lines, the OS hostname is used. |
| `Config.HostnameIsLastLine` | main.go:139-148 | If the file has lines, the hostname is the last line. |
| `Config.EmptyLastLineIsKept` | main.go:140-146 | An empty last line gives an empty hostname, whatever the OS hostname is. |
| `Monitor.Ping` | main.go:80-106 | Count rises by 1 whether or not a reply arrives. A timeout leaves Value, Min, Max and Avg unchanged. A reply updates them as OnRecv does. The labels and Start are not in its frame. |
| `Monitor.Watch` | main.go:67-68 | After n passes, Count has risen by n. Min, Max, Avg and Value are the folds of the replies that arrived, in order, starting from the old state. The invariant is kept. |
| `Monitor.Run` | main.go:29-68 | From start-up, Count equals the number of attempts. Min, Max and Avg are the folds of the replies that arrived, starting from 0, and Value is the latest reply (0 if none). Avg is the smoothed sum of the replies. With no reply, Min, Max and Value stay 0. With strictly positive replies, Min and Max are the smallest and the largest reply. The labels are the chosen hostname and endpoint. |

## Left out

- The ICMP pinger (main.go:81-82, 105) is not modelled. Its raw sockets, internal timeout and callback dispatch are a foreign library and network I/O. Each attempt is modelled as an optional round-trip time in seconds.
- The root check (main.go:43-46) and address resolution (main.go:59-63) are not modelled. Both are OS or network calls that end the process on failure. `Run` takes the resolved address as a parameter.
- The InfluxDB client and the per-pass `WritePoint` (main.go:53-57, 70-75) are not modelled. They are an external sink whose failures the code ignores.
- `handleSigTerm` (main.go:109-123) is not modelled. It is a goroutine that reads the record without synchronisation, waits on a signal channel and ends in `os.Exit`. This covers concurrency, process control and the elapsed-time summary.
- Console output (`fmt.Printf`, `fmt.Println`) and the clock (`time.Now`, `time.Since`) are not modelled. The start time is an integer parameter.
- File and OS access in `getHostname` (`os.Getwd`, `os.Open`, `os.Hostname`) is not modelled. The OS hostname is a parameter, and an ignored lookup error is just an empty string. The file is given already split into lines. What `bufio.Scanner` does to line endings, and how it stops on over-long lines or read errors, is not modelled.
- `Monitor.Watch`: models only a finite prefix of the endless loop in `main`, because a verified method must terminate.
- `Stats.Statistics.Attempt`: does not model the wrap-around of the `int64` Count after 2^63 attempts, because no realistic run reaches it.
- `Stats.Statistics.OnRecv`: values are `real`, not IEEE-754 `float64`. The rounding in `rtt.Seconds() * 1000` and in `(Avg + Value) / 2` is not captured, and neither are NaN or infinities. The comparisons in Min and Max carry over exactly.
