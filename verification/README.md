# Three coursework algorithms, modelled and proved in Dafny

This project models three independent algorithms from a set of algorithm
exercises and proves what each promises.

- **Hamiltonian-path search** (`hamiltonian.dfy`, module `HamiltonianSearch`).
  `hamiltonian_path(graph, n)` tries each key of an adjacency dictionary as a
  start vertex, in insertion order. From each start it runs the nested
  `backtrack`, which grows a shared `path` list and `visited` set, tries the
  unvisited neighbours in list order, and undoes its push when every branch
  fails. It returns a copy of the first path that reaches `n` vertices, or
  `None`.
  - The dictionary is a `Graph`: the key sequence in iteration order plus a map
    from key to neighbour list. `graph.get(v, [])` is `Neighbours`.
  - The shared state is the class `Search`, with fields `path: seq` and
    `visited: set` and the method `Backtrack`. The driver is the method
    `HamiltonianPath`.
  - Both methods are proved equal to specification functions. `Extend` is one
    `backtrack` call, `Explore` is its neighbour loop and `FirstPath` is the
    start-key loop. Soundness, exhaustiveness and the Hamiltonian-path reading
    are lemmas about those functions.
- **Karatsuba multiplication** (`karatsuba.dfy`, module `Karatsuba`).
  `karatsuba(x, y)` splits both operands at `10^m` and recurses on three
  products. The function `Karatsuba` is proved equal to `x * y`, with the split,
  middle-term and recombination identities and the termination measure as
  separate members. `multiplicacao_tradicional` is `Traditional`.
- **Max/min selection** (`max_min.dfy`, module `MaxMinSelect`).
  `max_min(arr, start, end)` returns (largest, smallest) of an inclusive index
  range, by divide and conquer. `find_max_min` rejects the empty list.

Three facts about the Hamiltonian search's code shape the model:
- An empty dictionary yields `None`; no error is raised
  (Trabalhos/TrabalhoIndividual_3/main.py:32-37).
- The dictionary is not validated: a neighbour that is not a key has no
  neighbours of its own (Trabalhos/TrabalhoIndividual_3/main.py:24).
- `n` is a parameter; the demo passes `len(graph)`
  (Trabalhos/TrabalhoIndividual_3/main.py:96). The Hamiltonian-path lemmas take
  that `n`.

## Model

| member | source | states |
|---|---|---|
| `HamiltonianSearch.Neighbours` | Trabalhos/TrabalhoIndividual_3/main.py:24 | `graph.get(v, [])`: a vertex that is not a key has no neighbours, and every neighbour listed is a vertex of the graph |
| `HamiltonianSearch.Extend` | Trabalhos/TrabalhoIndividual_3/main.py:19-30 | one `backtrack(v)` call as a value: on success the path returned has exactly `n` vertices and begins with the current path followed by `v` |
| `HamiltonianSearch.Explore` | Trabalhos/TrabalhoIndividual_3/main.py:24-28 | the neighbour loop from a given index: visited neighbours are skipped, the first successful `Extend` is returned and `None` when the list is exhausted; a returned path has `n` vertices and strictly extends the current one, which was shorter than `n` |
| `HamiltonianSearch.FirstPath` | Trabalhos/TrabalhoIndividual_3/main.py:32-37 | the start-key loop from a given key index, clearing the state before each key: a returned path has `n > 0` vertices and starts at one of the remaining keys |
| `HamiltonianSearch.FindPath` | Trabalhos/TrabalhoIndividual_3/main.py:32-37 | the start-key loop over all keys: `None` on an empty dictionary; a returned path has `n > 0` vertices and starts at a key |
| `HamiltonianSearch.Search.constructor` | Trabalhos/TrabalhoIndividual_3/main.py:16-17 | the search starts with an empty `path` and an empty `visited` set, and the invariant holds |
| `HamiltonianSearch.Search.Clear` | Trabalhos/TrabalhoIndividual_3/main.py:33-34 | `path` and `visited` are emptied and the invariant still holds |
| `HamiltonianSearch.Search.Backtrack` | Trabalhos/TrabalhoIndividual_3/main.py:19-30 | keeps `visited` equal to the elements of `path`, with `path` duplicate-free and following edges; returns true exactly when `Extend` finds a path and then leaves that path in `path`; on false restores `path` and `visited` exactly |
| `HamiltonianSearch.HamiltonianPath` | Trabalhos/TrabalhoIndividual_3/main.py:9-37 | returns exactly what the start-key loop `FindPath` returns; an empty dictionary yields `None` |
| `HamiltonianSearch.PushKeepsSimple` | Trabalhos/TrabalhoIndividual_3/main.py:20-26 | appending an unvisited neighbour of the last vertex keeps the path duplicate-free and edge-following, and adds exactly that vertex to its element set |
| `HamiltonianSearch.FewerUnvisited` | Trabalhos/TrabalhoIndividual_3/main.py:24-26 | each descent strictly shrinks the set of vertices not yet visited, so the search terminates |
| `HamiltonianSearch.ExtendSound` | Trabalhos/TrabalhoIndividual_3/main.py:19-27 | a successful `backtrack(v)` from path `p` yields a duplicate-free, edge-following path of exactly `n` vertices that begins with `p` followed by `v` |
| `HamiltonianSearch.ExploreSound` | Trabalhos/TrabalhoIndividual_3/main.py:24-27 | a successful neighbour loop yields a simple path of `n` vertices that extends the current path |
| `HamiltonianSearch.ExploreFailedAt` | Trabalhos/TrabalhoIndividual_3/main.py:24-28 | when the neighbour loop ends without success, every unvisited neighbour from that index on was tried and failed |
| `HamiltonianSearch.ExtendComplete` | Trabalhos/TrabalhoIndividual_3/main.py:19-30 | a failed `backtrack(v)` is exhaustive: no simple path of `n` vertices begins with the current path followed by `v` |
| `HamiltonianSearch.FirstPathFirstKey` | Trabalhos/TrabalhoIndividual_3/main.py:32-36 | a returned path comes from the first key, in iteration order, whose search succeeds; every earlier key failed |
| `HamiltonianSearch.FindPathSound` | Trabalhos/TrabalhoIndividual_3/main.py:32-36 | a returned list has exactly `n` vertices, repeats none, follows edges, and starts at a key all of whose predecessors failed |
| `HamiltonianSearch.FirstPathNone` | Trabalhos/TrabalhoIndividual_3/main.py:32-37 | `None` is returned only after the search from every start key has failed |
| `HamiltonianSearch.FindPathComplete` | Trabalhos/TrabalhoIndividual_3/main.py:32-37 | when `None` is returned, no simple path of `n` vertices starts at any key |
| `HamiltonianSearch.CoversAllKeys` | Trabalhos/TrabalhoIndividual_3/main.py:96-105 | on a dictionary whose neighbours are all keys, a simple path of `len(graph)` vertices from a key is a permutation of the keys |
| `HamiltonianSearch.HamiltonianSound` | Trabalhos/TrabalhoIndividual_3/main.py:9-15 | with `n = len(graph)` on such a dictionary, a returned list is a Hamiltonian path |
| `HamiltonianSearch.HamiltonianDecision` | Trabalhos/TrabalhoIndividual_3/main.py:9-15 | with `n = len(graph)` on such a non-empty dictionary, a list is returned if and only if a Hamiltonian path exists |
| `HamiltonianSearch.ChainExample` | Trabalhos/TrabalhoIndividual_3/main.py:53-60 | the demo's directed chain 0→1→2→3 yields exactly `[0, 1, 2, 3]` |
| `HamiltonianSearch.SingleVertex` | Trabalhos/TrabalhoIndividual_3/main.py:22-23 | a one-key dictionary with `n = 1` yields the one-vertex path, whatever its neighbours |
| `Karatsuba.NumDigits` | Trabalhos/TrabalhoIndividual_1/Karatsuba_Algorithm/main.py:27 | `len(str(x))` for `x >= 0`: the `k >= 1` with `x < 10^k`, and `10^(k-1) <= x` when `x > 0`; exactly one digit when `x < 10`, so `len(str(0)) == 1` |
| `Karatsuba.SplitPoint` | Trabalhos/TrabalhoIndividual_1/Karatsuba_Algorithm/main.py:26-30 | for two operands of at least two digits, `m = n // 2` satisfies `1 <= m < n`, and the longer operand is at least `10^m`, so its high part is nonzero |
| `Karatsuba.Split` | Trabalhos/TrabalhoIndividual_1/Karatsuba_Algorithm/main.py:32-38 | the split identity: `x == a * 10^m + b` with `0 <= b < 10^m` |
| `Karatsuba.SplitShrinks` | Trabalhos/TrabalhoIndividual_1/Karatsuba_Algorithm/main.py:32-38 | `a + b <= x`, strictly when the high part is nonzero; the high part of a number with two or more digits is smaller than it; a number below `10^m` has high part 0 |
| `Karatsuba.CallsShrink` | Trabalhos/TrabalhoIndividual_1/Karatsuba_Algorithm/main.py:40-43 | each of the three recursive calls has a strictly smaller termination measure (the larger operand while both have two digits) |
| `Karatsuba.MiddleTerm` | Trabalhos/TrabalhoIndividual_1/Karatsuba_Algorithm/main.py:43 | `(a+b)(c+d) - ac - bd == ad + bc` |
| `Karatsuba.Pow10Add` | Trabalhos/TrabalhoIndividual_1/Karatsuba_Algorithm/main.py:46 | `10^(i+j) == 10^i * 10^j`, so `10^(2m)` is the square of `10^m` |
| `Karatsuba.Recombine` | Trabalhos/TrabalhoIndividual_1/Karatsuba_Algorithm/main.py:10-13 | the documented formula: `(a*10^m + b)(c*10^m + d) == ac*10^(2m) + (ad+bc)*10^m + bd` |
| `Karatsuba.CombineCorrect` | Trabalhos/TrabalhoIndividual_1/Karatsuba_Algorithm/main.py:45-46 | with the three products correct, the recombined value equals `x * y` |
| `Karatsuba.Karatsuba` | Trabalhos/TrabalhoIndividual_1/Karatsuba_Algorithm/main.py:7-48 | the result equals `x * y` for every pair of integers, including the direct base case when either is below ten |
| `Karatsuba.Traditional` | Trabalhos/TrabalhoIndividual_1/Karatsuba_Algorithm/main.py:51-63 | the reference product `x * y` agrees with `karatsuba` on every pair of integers, which is what the demo asserts at line 113 |
| `MaxMinSelect.Midpoint` | Trabalhos/TrabalhoIndividual_2/main.py:32-37 | `mid` splits a range of three or more elements into `[start..mid]` and `[mid+1..end]`, both non-empty and strictly shorter |
| `MaxMinSelect.MaxMin` | Trabalhos/TrabalhoIndividual_2/main.py:8-40 | the first component is at least every `arr[i]` with `start <= i <= end` and equals one of them; the second is at most every one and equals one of them; the maximum is never below the minimum. This covers both base cases, including the two-element case returning the larger element first |
| `MaxMinSelect.MaxMinUnique` | Trabalhos/TrabalhoIndividual_2/main.py:8-40 | any pair with those two properties equals the result of `max_min` |
| `MaxMinSelect.FindMaxMin` | Trabalhos/TrabalhoIndividual_2/main.py:43-58 | an error exactly when the list is empty; otherwise the largest and smallest of the whole list |

## Left out

- Timing (`medir_tempo_execucao`, and all of `analise_complexidade.py`): wall-clock measurement, random operands and floating-point complexity ratios have no functional content.
- `view.py`: drawing the graph and the found path with plotting libraries. It is rendering only.
- The `main()` and `__main__` demo drivers: printing, random test lists and the edge listing. The demo's chain graph is kept as `ChainExample`.
- `Karatsuba.NumDigits` models `len(str(x))` only for `x >= 0`. A negative operand is below ten, so it always takes the base case and never has its digits counted.
- `MaxMinSelect.MaxMin` requires `0 <= start <= end < len(arr)`. That is the only range `find_max_min` passes. Other ranges are not covered: `end >= len(arr)` raises `IndexError`, `start > end` recurses without end, and negative indices wrap around.
- `MaxMinSelect.MaxMin` and `MaxMinSelect.FindMaxMin` model the list's elements as integers. Floats, and the unordered comparisons of NaN, are not covered.
- `HamiltonianSearch.Search.Backtrack` has no recursion depth limit. `backtrack` recurses once per path vertex (Trabalhos/TrabalhoIndividual_3/main.py:26), so Python raises `RecursionError` beyond about a thousand levels, where the model still returns a path.
- `HamiltonianSearch.Search.Backtrack` requires its vertex to be unvisited and, when the path is non-empty, to be a neighbour of the last vertex. Those are the only two ways the search calls `backtrack`.
- Aliasing of the returned list: `path.copy()` returns an independent list, and the model returns a sequence value, which cannot alias the search's state. The dictionary is an immutable value, so it is never mutated.
- Python's integers are unbounded, like Dafny's `int`. `//` and `%` only ever see non-negative operands here, where Python's floor division and Dafny's Euclidean division agree.
