# Branch vehicle queue — a Dafny model

The web app keeps one in-memory vehicle queue per branch. The branches form a
fixed list, `FILIAIS` (RIO, SALVADOR, AVENIDA, DUTRA, SEDE, ITABUNA). At start-up
the table `fila` maps each of them to an empty list. Three request handlers work
on that table:

- the listing page (`index`) shows the queue of the selected branch (RIO by
  default), or nothing for a branch that is not in the table;
- registration (`registrar`) appends a record `{ordem, placa, solicitacao, hora}`
  to the branch's queue, numbered with the queue's length plus one;
- release (`liberar`) looks up the first record with the given number. If there
  is one, it replaces the branch's queue with a copy that has every record with
  that number removed. It then hands the first record, together with the branch
  and the release time, to the history collection.

This project models that core in one module, `Fila` (`fila.dfy`):

- the class `Queues` holds the table (`fila: map<string, seq<Entry>>`) and an
  append-only `historico: seq<Archived>` that stands for the history collection;
- its methods `List`, `Register` and `Release` are the three handlers, each with
  a contract that states the whole new state;
- the lookups the handlers use are pure functions: `FindFirst` (the
  first-match lookup), `RemoveAll` (the filtering copy) and `Enqueued` (the
  queue after one registration);
- lemmas prove the multi-step properties.

The model follows the code as written. The code validates nothing: not the
plate, not duplicate plates, not empty requests. A release never renumbers the
records that remain, so numbers can repeat. Registering 1, 2, 3, releasing 1 and
registering again gives the numbers `[2, 3, 3]`. Releasing 3 then removes both
records numbered 3 but archives only the first. The lemmas
`RegisterAfterReleaseRepeatsOrdinal`, `ReleaseDropsEveryDuplicate` and
`RepeatedOrdinalScenario` state this behaviour.

## Model

| member | source | states |
|---|---|---|
| `Fila.InitialTable` | app.py:19-21 | the start-up table has exactly the six branches of FILIAIS as keys, each with an empty queue |
| `Fila.Queues.constructor` | app.py:19-21 | a new process has the start-up table, an empty history, and satisfies the invariant (keys are FILIAIS, numbers positive) |
| `Fila.Queues.List` | app.py:26-28 | the selected branch is the requested one, or RIO when none is given; the result is that branch's queue for a known branch and the empty queue otherwise; nothing changes |
| `Fila.Queues.Register` | app.py:33-47 | an unknown branch is a KeyError with no state change; otherwise exactly one record numbered old length + 1 is appended to that branch's queue; other branches and the history are unchanged; the invariant is kept |
| `Fila.Queues.Release` | app.py:51-61 | an unknown branch is a KeyError with no state change; with no record of that number nothing changes and nothing is archived; otherwise the queue loses every record of that number and the history gains exactly one record: the first match with the branch and the release time |
| `Fila.Enqueued` | app.py:37-47 | one registration grows the queue by exactly one record at the back, numbered old length + 1 and holding the form's fields, and leaves every earlier record as it was |
| `Fila.FirstIndex` | app.py:53 | the position found is the first record with that number, or the queue's length when no record has it |
| `Fila.FindFirst` | app.py:53 | the lookup returns nothing exactly when no record carries the number; otherwise it returns a record with that number that no earlier record shares |
| `Fila.Count` | app.py:55 | the number of records carrying a given number is at most the queue length and is positive exactly when one is present |
| `Fila.RemoveAll` | app.py:55 | the filtered queue is no longer than the old one and no survivor carries the released number |
| `Fila.RemoveAllLength` | app.py:55 | the filtered queue is shorter by exactly the number of records that carry the released number, so every one of them is dropped |
| `Fila.RemoveAllNoMatch` | app.py:55 | a queue in which no record carries the number comes back unchanged |
| `Fila.RemoveAllConcat` | app.py:55 | filtering distributes over concatenation, so survivors keep their relative order |
| `Fila.RemoveAllMembers` | app.py:55 | a record survives exactly when it was queued and carries another number, so survivors keep their old numbers (no renumbering) |
| `Fila.RemoveAllAround` | app.py:55 | when only one record carries the number, filtering removes that record and leaves everything before and after it in place |
| `Fila.RegisterAllAppends` | app.py:37-47 | a run of registrations leaves the old queue as a prefix, and the j-th new record holds the j-th form with number old length + j + 1 |
| `Fila.FreshQueueNumbering` | app.py:21-47 | from an empty queue, registrations alone number the records exactly 1..n in insertion order, so the numbers are distinct |
| `Fila.ReleaseOfDistinctRemovesOne` | app.py:53-55 | while numbers are distinct, releasing a present number finds exactly that record and removes exactly it |
| `Fila.ReleaseDropsEveryDuplicate` | app.py:53-55 | when records at positions i < j share a number, the lookup picks the record at a position no later than i (the one Release archives), while the filter removes at least two records |
| `Fila.RegisterAfterReleaseRepeatsOrdinal` | app.py:37-55 | on a queue numbered 1..n, releasing any record but the last and registering once puts two records numbered n at the back |
| `Fila.RepeatedOrdinalScenario` | app.py:37-61 | register 1, 2, 3, release 1, register: the numbers are [2, 3, 3]; releasing 3 picks the third vehicle's record and leaves [2], dropping the fourth vehicle without an archived record |

## Left out

- HTTP routing, form and query parsing, templates and redirects (app.py:1, 7, 23-24, 29, 31-35, 48, 50, 62, 64-65). Form values are plain string parameters. A form field that is missing (`None`) is not modelled.
- Firebase credential loading and client setup (app.py:3-4, 10-16). These are a foreign library and file I/O.
- The history write (app.py:57-61) is modelled as an append to `historico`. Network failures and the document id it assigns are not modelled.
- `datetime.now()` (app.py:38, 60) is not modelled. The registration time (`hora`, already formatted text) and the release time (`agora`, an opaque integer clock value) are parameters.
- Fila.Queues.List: returns the queue as a value. In the source the page receives the live list object, and later appends to that branch are visible through it; the model does not capture this aliasing.
- Fila.Queues.Register: returns the created record so that callers can see it. The source handler returns only a redirect.
- Concurrent requests sharing `fila` are not modelled. The model is sequential.
