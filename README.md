# Argument binding and opcode statistics of a teaching Python VM

This project models two parts of a small Python bytecode interpreter written in Python, and proves properties of them.

**`bind_args` (arg_binding/arg_binding.py).** This routine matches a call's positional and keyword values to a function's parameters. It either returns a dictionary from parameter name to value or raises a `TypeError` with one of five messages. The module `ArgBinding` (arg_binding.dfy) models it in two layers:
- `Bind` is a specification function, built from recursive functions over prefixes of the positional and keyword lists.
- `BindArgs` is an imperative method whose loops mirror the source's loops, each in its own phase method. It is proved to return exactly `Bind`.

The lemmas at the end of the file say what an outcome means:
- which error is raised, and exactly when;
- which value each parameter receives;
- what the `*args` tuple and the `**kwargs` dict hold;
- that a successful result binds exactly the parameter names.

The function's signature is a `Signature` record: parameter names in the interpreter's layout, positional defaults, keyword-only defaults, the keyword-only count, and the two variadic flags. Keyword arguments are a sequence of distinct `(name, value)` pairs in call order.

The model follows the code as written, including its quirks:
- The routing rule for positional values compares the index with `len(names) - 2` when there is `**kwargs`, and with `-1` otherwise. So with `*args` but no `**kwargs`, every positional value goes to the tuple. A positional value also goes to the tuple, whenever `*args` exists, if its parameter is named by a keyword or has a keyword-only default.
- Keyword-only parameters are checked only by the early count test. A keyword-only parameter still left unbound is reported by the final length test as a missing positional argument.
- Without `*args` but with `**kwargs`, the early checks admit one positional value more than there are positional parameters. That value lands on the name that follows them. With keyword-only parameters, that name is the first keyword-only one, which is then bound positionally (`KwOnlyFilledPositionally`). Without them, it is the `**kwargs` name, and the dict replaces the value (`ExtraPositionalOverwritten`).
- With both `*args` and `**kwargs`, a positional value at the index of a keyword-only parameter goes to that parameter, unless the parameter is given as a keyword or has a keyword-only default (`KwOnlyFilledPositionallyWithVarArgs`).
- A keyword naming the `*args` or `**kwargs` parameter is bound to that name and then replaced by the tuple or the dict, so its value is lost (`ArgsNameKeywordLost`, `KwargsNameKeywordLost`).

**`Scorer` (vm/vm_scorer.py).** The scorer aggregates per-test opcode counts. The module `VmScorer` (scorer.dfy) has a class `Scorer` whose constant fields are the level scores, the opcode level table and the list of per-test opcode-count maps. Its members cover:
- the total count of each opcode;
- the level of a test: the highest level among its opcodes, and at least 1;
- how many tests fall in each level;
- how many opcodes, overall and per level, are covered.

The loop-based operations are methods, proved against specification functions (`Total`, `MaxLevel`, `LevelCount`, `Covered`, `CoveredAt`). A dictionary lookup that raises `KeyError` in the source makes the method return `None`.

`Common` (common.dfy) holds the `Option` type and a set-cardinality lemma that both models use.

## Model

| member | source | states |
|---|---|---|
| ArgBinding.MessagesDistinct | arg_binding/arg_binding.py:8-12 | the texts `Message` gives the five rejections are pairwise distinct, so two rejections carry the same text only if they are the same rejection |
| ArgBinding.Bind | arg_binding/arg_binding.py:15-120 | the outcome of a call is a rejection or a binding of exactly the parameter names |
| ArgBinding.EarlyCheck | arg_binding/arg_binding.py:40-45 | the early checks raise only too-many-positional or missing-keyword-only; the first raises exactly when there is no `*args` and keyword-only count plus positional count exceed the name count (the test at line 40 is subsumed), the second exactly when that test passes and the keyword-only count exceeds keywords plus keyword-only defaults |
| ArgBinding.ToTuple | arg_binding/arg_binding.py:48 | only a function with `*args` routes positional values to the tuple, and with `*args` a value is bound to its name only when there is `**kwargs` and its index lies before the `*args` slot |
| ArgBinding.WithVariadics | arg_binding/arg_binding.py:74-80 | filling the slots adds only the variadic names, keeps every other binding, puts the dict on the `**kwargs` name and the tuple on the `*args` name |
| ArgBinding.BindArgs | arg_binding/arg_binding.py:15-120 | the step-by-step binder returns exactly the outcome `Bind` specifies, for every signature and call |
| ArgBinding.DistributePositional | arg_binding/arg_binding.py:46-51 | the positional loop binds exactly the unrouted values to their names and collects the routed ones, in call order, as the tuple |
| ArgBinding.DistributeKeywords | arg_binding/arg_binding.py:53-62 | the keyword loop raises the rejection of the first offending keyword, if any; otherwise it adds the parameter keywords to the result and the others to the `**kwargs` dict |
| ArgBinding.FillKwDefaults | arg_binding/arg_binding.py:63-67 | the keyword-only default loop adds each default whose name is still unbound, and nothing else |
| ArgBinding.FillPosDefaults | arg_binding/arg_binding.py:68-72 | the positional default loop gives the `k`-th default to the name at index `i_def_pos + k` when that name is unbound |
| ArgBinding.FirstOffence | arg_binding/arg_binding.py:54-62 | the keyword loop can only raise multiple-values or too-many-keyword |
| ArgBinding.FirstOffenceSticks | arg_binding/arg_binding.py:54-62 | once a keyword has raised, later keywords do not change the rejection |
| ArgBinding.FirstOffenceNone | arg_binding/arg_binding.py:54-62 | the keyword loop raises nothing exactly when no keyword is already bound or, without `**kwargs`, names no parameter |
| ArgBinding.FirstOffenceAt | arg_binding/arg_binding.py:54-62 | the rejection raised is that of the first offending keyword in call order |
| ArgBinding.FirstOffenceWitness | arg_binding/arg_binding.py:54-62 | every rejection from the keyword loop is caused by some keyword, and no keyword before it offends |
| ArgBinding.KeywordStep | arg_binding/arg_binding.py:55-62 | one keyword iteration: its membership test sees only the positional bindings, and it either binds, collects or raises |
| ArgBinding.NamedKeywordsKeys | arg_binding/arg_binding.py:57-58 | the keywords bound to parameters are exactly the keywords that name a parameter |
| ArgBinding.NamedKeywordsAt | arg_binding/arg_binding.py:57-58 | a keyword naming a parameter is bound to its own value |
| ArgBinding.ExtraKeywordsKeys | arg_binding/arg_binding.py:59-60 | the `**kwargs` dict has exactly the keywords that name no parameter |
| ArgBinding.ExtraKeywordsAt | arg_binding/arg_binding.py:59-60 | such a keyword is stored in the dict unchanged |
| ArgBinding.PositionalBoundAt | arg_binding/arg_binding.py:47-51 | a name is bound positionally exactly when its index has a value that is not routed to the tuple, and then to that value |
| ArgBinding.PositionalBoundKeys | arg_binding/arg_binding.py:47-51 | every positionally bound name is the name of an unrouted index |
| ArgBinding.RoutedAll | arg_binding/arg_binding.py:48 | with `*args` and no `**kwargs` the tuple is all the positional values, in call order |
| ArgBinding.PosDefaultsFillKeys | arg_binding/arg_binding.py:68-72 | positional defaults fill only unbound names in the defaulted index range |
| ArgBinding.PosDefaultsFillAt | arg_binding/arg_binding.py:68-72 | an unbound name in that range receives its own default |
| ArgBinding.PosDefaultsStep | arg_binding/arg_binding.py:70-72 | one positional default iteration adds the default only if the name is unbound |
| ArgBinding.BindAccepted | arg_binding/arg_binding.py:118-120 | after the early checks and the keyword loop pass, the outcome is decided by the final length test alone |
| ArgBinding.TooManyPositionalIff | arg_binding/arg_binding.py:40-43 | too-many-positional is raised exactly when there is no `*args` and keyword-only count plus positional count exceed the name count |
| ArgBinding.MissingKeywordOnlyIff | arg_binding/arg_binding.py:44-45 | missing-keyword-only is raised exactly when the positional checks pass and the keyword-only count exceeds keywords plus keyword-only defaults |
| ArgBinding.RepeatedKeywordRejected | arg_binding/arg_binding.py:55-56 | without `*args`, a keyword repeating a positionally bound name makes the call fail, and with `**kwargs` always with multiple-values |
| ArgBinding.NoMultipleValuesWithVarArgs | arg_binding/arg_binding.py:48 | with `*args`, multiple-values is never raised, because such a positional value goes to the tuple |
| ArgBinding.UnknownKeywordRejected | arg_binding/arg_binding.py:61-62 | without `**kwargs`, a keyword naming no parameter makes the call fail |
| ArgBinding.KeywordRejectionIff | arg_binding/arg_binding.py:53-62 | multiple-values, and likewise too-many-keyword, is raised exactly when the early checks pass and the first offending keyword in call order causes that rejection |
| ArgBinding.CompletedFixed | arg_binding/arg_binding.py:74-80 | filling the variadic slots leaves every other parameter as it was |
| ArgBinding.CompletedHasSlots | arg_binding/arg_binding.py:74-80 | the variadic names are always bound |
| ArgBinding.DefaultedHas | arg_binding/arg_binding.py:47-72 | a non-variadic parameter is bound exactly when it receives a positional value, a keyword or a default |
| ArgBinding.DefaultedKeyword | arg_binding/arg_binding.py:57-58 | a keyword's value is never displaced by a default |
| ArgBinding.DefaultedPositional | arg_binding/arg_binding.py:50-51 | a positional value not displaced by a keyword survives the default loops |
| ArgBinding.DefaultedKwDefault | arg_binding/arg_binding.py:63-67 | an otherwise unbound name with a keyword-only default receives it |
| ArgBinding.DefaultedPosDefault | arg_binding/arg_binding.py:68-72 | an otherwise unbound name with a positional default receives it |
| ArgBinding.CompletedKeysAreNames | arg_binding/arg_binding.py:47-80 | every key of the result is a parameter name |
| ArgBinding.CompletedCovers | arg_binding/arg_binding.py:47-80 | when every non-variadic parameter is filled, every name is bound |
| ArgBinding.CompletedSize | arg_binding/arg_binding.py:118 | the result has fewer entries than names exactly when some non-variadic parameter is unfilled |
| ArgBinding.MissingPositionalIff | arg_binding/arg_binding.py:118-119 | missing-positional is raised exactly when the earlier checks pass and some non-variadic parameter received nothing |
| ArgBinding.BindKeywordValue | arg_binding/arg_binding.py:57-58 | on success, a keyword naming a non-variadic parameter is that parameter's value |
| ArgBinding.BindPositionalValue | arg_binding/arg_binding.py:47-51 | on success, an unrouted positional value at a non-variadic index is that parameter's value |
| ArgBinding.BindKwDefault | arg_binding/arg_binding.py:63-67 | on success, a keyword-only parameter given nothing has its keyword-only default |
| ArgBinding.BindPosDefault | arg_binding/arg_binding.py:68-72 | on success, a defaulted positional parameter given nothing has its default |
| ArgBinding.BindVariadicSlots | arg_binding/arg_binding.py:74-80 | on success, the `*args` name holds the routed values in call order (all of them without `**kwargs`), and the `**kwargs` name holds exactly the keywords naming no parameter, with their values |
| ArgBinding.OnlyVarArgs | arg_binding/arg_binding.py:74-80 | a function with only `*args`, called without keywords, binds the whole positional tuple |
| ArgBinding.OnlyVarKwargs | arg_binding/arg_binding.py:53-77 | a function with only `**kwargs`, called without positional values, binds the dict of its keywords other than one naming the dict itself |
| ArgBinding.ExtraPositionalOverwritten | arg_binding/arg_binding.py:40-43 | `f(a, **kw)` called with two positional values succeeds, and the second value is lost to the dict |
| ArgBinding.KwOnlyFilledPositionally | arg_binding/arg_binding.py:42-51 | `def f(a, *, b=5, **kw)` called as `f(1, 2)` succeeds and binds the keyword-only `b` to 2 |
| ArgBinding.KwOnlyFilledPositionallyWithVarArgs | arg_binding/arg_binding.py:47-51 | `def f(a, *args, b, **kw)` called as `f(1, 2, 3, z=9)` binds `b` to 2, `args` to `(3,)` and `kw` to `{z: 9}` |
| ArgBinding.KwargsNameKeywordLost | arg_binding/arg_binding.py:57-58 | `def f(**kw)` called as `f(kw=1)` binds `kw` to the empty dict, losing the keyword's value |
| ArgBinding.ArgsNameKeywordLost | arg_binding/arg_binding.py:57-58 | `def f(*args)` called as `f(args=1)` binds `args` to the empty tuple, losing the keyword's value |
| VmScorer.Tally | vm/vm_scorer.py:168-169 | the per-level counter has exactly the levels that occur, each with a count of at least one |
| VmScorer.TallySum | vm/vm_scorer.py:168-172 | the per-level counts add up to the number of opcodes |
| VmScorer.TotalPositive | vm/vm_scorer.py:174-181 | an opcode's total is nonzero exactly when some test uses it a nonzero number of times |
| VmScorer.MaxLevel | vm/vm_scorer.py:204-210 | a test's level is at least 1, at least the level of each of its opcodes, and either 1 or one of those levels |
| VmScorer.MaxLevelUnique | vm/vm_scorer.py:204-210 | those three properties determine the level |
| VmScorer.MaxLevelMonotone | vm/vm_scorer.py:204-210 | using more opcodes never lowers a test's level |
| VmScorer.Scorer.constructor | vm/vm_scorer.py:156-162 | the scorer keeps the level scores, the level table and the per-test counts it is given |
| VmScorer.Scorer.LevelOperationsCount | vm/vm_scorer.py:168-169 | the counter has exactly the levels that occur in the table, each with its number of opcodes |
| VmScorer.Scorer.OperationsCount | vm/vm_scorer.py:171-172 | the operation count is the sum of the per-level opcode counts |
| VmScorer.Scorer.Totals | vm/vm_scorer.py:174-181 | the totals have exactly the table's opcodes, and an opcode's total is nonzero exactly when some test uses it |
| VmScorer.Scorer.TestLevel | vm/vm_scorer.py:204-210 | fails exactly when an opcode has no level; otherwise returns the test's level |
| VmScorer.Scorer.TotalStats | vm/vm_scorer.py:174-181 | fails exactly when a test uses an opcode without a level; otherwise it has exactly the level table's opcodes, each with its sum over all tests |
| VmScorer.Scorer.LevelsStats | vm/vm_scorer.py:183-190 | fails exactly when some test's level cannot be computed or has no score; otherwise it has exactly the scored levels, each with its number of tests, and the counts sum to the number of tests |
| VmScorer.Scorer.LevelsCoverage | vm/vm_scorer.py:192-199 | fails exactly when the totals fail or a covered opcode's level has no score; otherwise it gives each scored level its number of covered opcodes, and these sum to the operations coverage |
| VmScorer.Scorer.CoverageByLevel | vm/vm_scorer.py:196-199 | the loop over the level table counts, per level, the opcodes with nonzero total, and fails on the first such opcode whose level has no score |
| VmScorer.Scorer.CoverageWithinLevel | vm/vm_scorer.py:192-199 | a level's coverage never exceeds its per-level opcode count |
| VmScorer.Scorer.OperationsCoverage | vm/vm_scorer.py:201-202 | fails exactly when the totals fail; otherwise it is at most the operation count, and equal to it exactly when every opcode is used |
| VmScorer.Scorer.CoveredSize | vm/vm_scorer.py:201-202 | the covered opcodes number at most the operation count, and equal it exactly when each opcode has a nonzero total |

## Left out

- Reflection on the function object (arg_binding/arg_binding.py:24-37) is replaced by the `Signature` record. `names` holds only the parameters, while a real `co_varnames` also lists local variables. `Signature.Valid` requires what a function definition guarantees: distinct names, room for the keyword-only and variadic names and the defaults, and keyword-only defaults that belong to keyword-only parameters.
- The `num_of_keys` counter (arg_binding/arg_binding.py:38, 66) is incremented but never read, so it is not modelled.
- The string literal at arg_binding/arg_binding.py:82-117 is never executed. The unused import at line 1 and the module-level prints after line 120 are not modelled either.
- The message carried by a `KeyError` in the scorer is not modelled. Failure is `None`.
- The per-opcode counts of a test are inputs. `_collect`, `get_operations`, `_extract_operations` and `generate_stub_operations` (vm/vm_scorer.py:142-146, 164-166, 212-227) compile the program text and disassemble it with `compile` and `dis`, which are foreign calls.
- `score` and `total_score` (vm/vm_scorer.py:229-242) are not modelled: they divide floating-point numbers.
- `dump_tests_stat` (vm/vm_scorer.py:245-269) is not modelled: it formats strings and writes to a stream.
- The `OPERATION_LEVELS` and `LEVEL_SCORES` tables (vm/vm_scorer.py:9-139) are not transcribed. The scorer takes any level table and level-score map.
- Python dictionaries iterate in insertion order. The loops over dictionary keys here pick the keys in an unspecified order. Every result modelled is independent of that order, which the contracts state for every order.
- ArgBinding.BindPositionalValue: stated only for indices before the variadic names. Without `*args`, a positional value at the `**kwargs` index is overwritten by the dict (see `ExtraPositionalOverwritten`), so "the value at every positional index is kept" does not hold for the code as written.
