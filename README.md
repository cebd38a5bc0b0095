# Route optimisation: shortest distance, prediction inputs and the route decision

This project models the computational core of a small route-optimisation
desktop program (`GRUPO3-Caso3.py`) and proves properties of that model in Dafny.

The program keeps a weighted graph of four nodes. When the user asks for a route
from `origen` to `destino`, it does three things:

- it computes the exact shortest distance with Dijkstra's algorithm;
- it asks a trained model for a predicted distance, fed with numeric node ids and a total option count;
- it stores a record of the query when both answers exist.

The model covers:

- **`dijkstra(graph, start, end)`** (`dijkstra.dfy`, module `ShortestPath`). This is an imperative method.
  - Its frontier is a heap of `(distance, node)` tuples with lazy deletion.
  - It keeps a map of tentative distances and a set of finalised nodes.
  - It returns early when `end` is popped, and returns `Inf` for "no route".
  - The inner `for neighbor, weight in ...` loop is the method `RelaxEdges`.
- **The graph and its paths** (`graphs.dfy`, module `Graphs`): walks, path weights, reachability and shortest distance, written as ghost definitions.
- **The heap order** (`frontier.dfy`, module `Frontier`): `heappop` takes the least tuple in Python's tuple order. That is the distance first, then the node label in Python string order.
- **The prediction inputs** (`prediction.dfy`, module `Prediction`). These are the label ids `ord(c) - ord('A') + 1`, the option sum, and the three outcomes of `predecir_distancia`. The trained model is a function parameter.
- **The route decision of `calcular_ruta`** (`routes.dfy`, module `Routes`). This covers how a request ends: one of three error dialogs, an uncaught `TypeError` from the label encoding, or the result dialog. It also covers which record is handed to `guardar_resultado`. It also holds the program's example graph and its A to D distance.

The main results are:

- `Dijkstra` returns `Fin(n)` exactly when `end` is reachable, and then `n` is the shortest path weight. It returns `Inf` otherwise. It returns `Fin(0)` when `start == end`.
- The nodes the search finalises are all different and are finalised in nondecreasing distance order. Each is finalised at its exact shortest distance. When a route exists, the last one is `end`, and every node strictly closer to `start` than `end` is among them. When none exists, the finalised nodes are exactly the nodes reachable from `start`.
- A relaxation pass gives each neighbour that is strictly closer through the finalised node the shorter distance and pushes exactly one tuple for it. Every other distance is unchanged and nothing else is pushed.
- On the example graph, the distance from A to D is 8.

## Model

| member | source | states |
|---|---|---|
| ShortestPath.Dijkstra | GRUPO3-Caso3.py:16-37 | The result is finite iff `end` is reachable from `start`, and then it is the shortest path weight. It is 0 when `start == end`. The finalised nodes are distinct, have nondecreasing distances, each is at its shortest distance. When the result is finite, the last finalised node is `end`, and every node strictly closer to `start` than `end` was finalised before it. When it is `Inf`, the finalised nodes are exactly the nodes reachable from `start`. It requires that every neighbour is a node and that `start` is a node unless it equals `end`. |
| ShortestPath.RelaxEdges | GRUPO3-Caso3.py:31-35 | Relaxing every edge of the just-finalised node `u` restores the search invariant. Each neighbour strictly closer through `u` gets `d` plus the edge weight, and exactly one tuple is pushed for it. Every other node keeps its distance and nothing else is pushed. Finalised distances are unchanged. |
| ShortestPath.NearerFinalised | GRUPO3-Caso3.py:22-26 | When the least tuple is popped, every node strictly closer to `start` than that tuple's distance is already finalised. |
| ShortestPath.PopExact | GRUPO3-Caso3.py:22-29 | The least tuple popped for an unfinalised node carries that node's tentative distance, and it equals the node's shortest distance. |
| ShortestPath.PopFresh | GRUPO3-Caso3.py:23-26 | Popping the least tuple for an unvisited node finalises it at its shortest distance and starts the relaxation of its edges with the invariant intact. |
| ShortestPath.PopStale | GRUPO3-Caso3.py:24-25 | Skipping a tuple for an already visited node keeps the search invariant. |
| ShortestPath.FrontierCut | GRUPO3-Caso3.py:22-35 | Every path from `start` to an unfinalised node is at least as long as some queued tuple. |
| ShortestPath.Exhausted | GRUPO3-Caso3.py:22-37 | When the heap runs empty before `end` is popped, `end` is unreachable. |
| ShortestPath.Init | GRUPO3-Caso3.py:17-20 | The initial heap `[(0, start)]`, infinite distances except 0 for `start`, and an empty visited set satisfy the search invariant. |
| ShortestPath.RelaxImproves | GRUPO3-Caso3.py:32-35 | A strictly shorter distance through `u` is stored and pushed, and the invariant and monotonicity are preserved. |
| ShortestPath.RelaxKeeps | GRUPO3-Caso3.py:32-33 | A distance that is not shorter leaves everything unchanged and keeps the invariant. |
| ShortestPath.PassImproves | GRUPO3-Caso3.py:32-35 | Storing and pushing a strictly shorter distance for one more neighbour extends the pass's exact account of the new distances and the new heap by that neighbour. |
| ShortestPath.PassKeeps | GRUPO3-Caso3.py:32-33 | Skipping a neighbour that is not strictly closer extends the pass's exact account by that neighbour with nothing changed. |
| ShortestPath.SoundAfterImprove | GRUPO3-Caso3.py:32-35 | Every finite tentative distance is still the weight of a real path after an edge is relaxed. |
| ShortestPath.Finalise | GRUPO3-Caso3.py:23-26 | Appending a newly finalised node to the trace keeps the nodes distinct and the distances nondecreasing. |
| Frontier.LeastExists | GRUPO3-Caso3.py:22-23 | A non-empty heap has a least tuple, so `heappop` always has one to return. |
| Frontier.LeastUnique | GRUPO3-Caso3.py:23 | The least tuple under Python's tuple order is unique. |
| Frontier.LabelBeforeTotal | GRUPO3-Caso3.py:23 | Python's string order compares any two different labels. |
| Frontier.LabelBeforeTransitive | GRUPO3-Caso3.py:23 | Python's string order is transitive. |
| Graphs.ShortestUnique | GRUPO3-Caso3.py:16-37 | The shortest distance does not depend on how ties were broken: two shortest distances are equal. |
| Graphs.SelfShortest | GRUPO3-Caso3.py:17-19 | Every node is at distance 0 from itself. |
| Graphs.ExtendWitness | GRUPO3-Caso3.py:32-34 | A path to `u` plus the edge `u -> v` witnesses the relaxed distance of `v`. |
| Graphs.PotentialBound | GRUPO3-Caso3.py:191-196 | A feasible node potential bounds every path weight from below. This is how the example distance is shown to be minimal. |
| Prediction.LabelId | GRUPO3-Caso3.py:147-148 | An id exists iff the label is one character. For one character, it lies in 1..26 iff the character is an upper-case letter. |
| Prediction.LetterIds | GRUPO3-Caso3.py:147-148 | Every number in 1..26 is the id of some upper-case letter, and only those numbers are. |
| Prediction.LabelIdInjective | GRUPO3-Caso3.py:147-148 | Two labels with the same id are equal. |
| Prediction.LabelIdOrdered | GRUPO3-Caso3.py:147-148 | For one-character labels, the id order is Python's string order. |
| Prediction.Encode | GRUPO3-Caso3.py:147-152 | The feature vector exists iff both labels are single characters. It carries their ids and `opciones_a + opciones_b`. |
| Prediction.PredictDistance | GRUPO3-Caso3.py:145-160 | The call ends in a raised encoding error iff a label is not one character. It returns `None` iff the model fails on the features. Otherwise it returns the model's value. |
| Routes.CalculateRoute | GRUPO3-Caso3.py:169-182 | An unknown node ends the request first. Then a label the encoding rejects ends it, then an unreachable destination, then a failed prediction. A record is saved iff the result is shown, and the record carries the predicted distance and `opciones_a + opciones_b`. |
| Routes.ExampleGraph | GRUPO3-Caso3.py:191-196 | The example graph has nodes A to D, and every neighbour is a node. |
| Routes.ExampleWitness | GRUPO3-Caso3.py:191-196 | The route A, C, B, D of the example graph weighs 8. |
| Routes.ExampleLowerBound | GRUPO3-Caso3.py:191-196 | No route from A to D in the example graph weighs less than 8. |
| Routes.ExampleRoute | GRUPO3-Caso3.py:16-37 | `dijkstra(graph, 'A', 'D')` on the example graph returns 8. |

## Left out

- The tkinter interface is left out because it is presentation only: the windows, entry fields, Treeview and message boxes. The `Outcome` constructors stand for the three error dialogs and the result dialog, plus `LabelRejected`, which is an uncaught `TypeError` and not a dialog.
- Parsing `opciones_a` and `opciones_b` with `int()` and stripping the entry fields are left out. The counts are taken as `int`. A non-numeric entry raises before the modelled part starts.
- The MySQL persistence is left out because it is SQL run by an external engine. This covers `conectar_db`, `init_db`, `guardar_resultado`, `listar_resultados` and `eliminar_resultado`. `CalculateRoute` returns the record it hands to `guardar_resultado`. Three things about storage are not modelled:
  - a failed connection or insert, which is reported and does not change the shown result;
  - the table's auto-increment id;
  - the conversion of the predicted value into the `INT` column.
- TensorFlow model loading and `model.predict` are left out because they are a foreign floating-point call. The model is the parameter `model`, which returns `None` where `predict` raises. A predicted value is a `real`; the model's `float32` is not modelled.
- The binary-heap layout of `heapq` is left out. The heap is the multiset of its tuples, and `heappop` removes the least one. The result and the order of finalisation do not depend on the layout.
- Dictionary iteration order in `graph[current_node].items()` is left out. `RelaxEdges` relaxes the neighbours in an arbitrary order, and its contract holds for every order.
- Python's arbitrary-precision integers are modelled as Dafny's unbounded `nat` and `int`. Python's mix of `int` distances and the `float('inf')` sentinel is the datatype `Dist`.
- A missing node triggers a `KeyError` in `dijkstra`, for two reasons:
  - A neighbour that is not a node makes `distances[neighbor]` raise, but only if the node holding that edge is finalised before `end`. For example, `{'A': {'B': 1}, 'B': {}, 'C': {'Z': 1}}` from A to B returns 1. `requires WellFormed(g)` excludes every such graph, which is stricter than the code. This loses nothing the program uses, because `calcular_ruta` only searches the example graph, which is well-formed (`Routes.ExampleGraph`).
  - A `start` that is not a node makes `graph[start]` raise, unless `start == end`, in which case 0 is returned first. This is excluded by `requires start in g \|\| start == end`. `calcular_ruta` only calls `dijkstra` with nodes of the graph.
- The labels are encoded as the code does, not with the stricter checks one might expect:
  - Any single character gets an id, with no restriction to A..Z.
  - A label that is not exactly one character makes `ord` raise a `TypeError`. It is not caught, so the request ends with the `LabelRejected` outcome and nothing is saved or shown.
  - Negative option counts are accepted and summed.
- The prediction runs before the code checks for an infinite distance. So in `Routes.CalculateRoute` a rejected label takes precedence over "no route", as in the code.
