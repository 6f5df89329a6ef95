# Lurk evaluator, proof public values, commitment data and limb words

A model, in Dafny, of four parts of the Lurk zkVM (the Rust repository),
with proofs of what each promises:

- **The direct evaluator** (`src/core/eval_direct.rs`). These are the Lair
  functions `eval`, `eval_builtin_expr`, `apply`, `env_lookup`,
  `equal_inner`, `extend_env_with_mutuals` and the rest of the group. Every
  value is a `(tag, ptr)` pair. Memory is append-only and content-addressed:
  `store` interns a row and gives back its 1-based pointer, `load` reads it
  back, and pointer 0 is the empty env or the empty string. A `hashes`
  record remembers the preimage of every hash3 digest produced, which is
  what `preimg` reads. Lurk errors are `Err`-tagged values. A failed load
  or a missing match arm halts the run (`Panic`). A `fuel` argument bounds
  evaluation (`OutOfFuel`).
- **Public values of an evaluation proof** (`src/core/cli/proofs.rs`). These
  are `expr.flatten() ++ env.digest ++ result.flatten() ++ depth` in 4
  little-endian bytes, copied into every shard and decoded back
  (`From<MachineProof>`, `CachedProof::new`).
- **Commitment data** (`src/core/cli/comm_data.rs`). This is the 24-element
  hash3 preimage `secret ++ payload.flatten()`, and the store methods that
  digest it, wrap it as a `Comm` and intern it.
- **Limb words** (`src/gadgets/unsigned/mod.rs`). These are `Word<T, W>`
  and `UncheckedWord<T, W>`: zero and one, little-endian bytes of an
  unsigned number, construction from exactly `W` items, `map`, and
  in-place byte assignment with range-check recording.

The external functions are modelled as follows:
- hash3, ingress, egress and big-number comparison are function-valued
  fields of a context `Ctx`.
- The symbol pointers of the built-ins are a map in `Ctx`.
- BabyBear arithmetic is arithmetic modulo P = 2013265921.
- The `u64_*` gadgets are the little-endian value of 8 byte limbs, modulo 2^64.

Modules:
- `Wrappers`, `Field`, `Words`, `Tags`, `Arena` (memory), `Layout` (rows
  of pairs, closures and digests);
- `Lang` (symbols and the context), `Envs`, `Equality`, `Prims` (numeric
  and unary primitives), `Commitments`, `Mutuals` (the letrec env);
- `Evaluator` (the recursive group) and `EvalFacts`, `FormFacts` and
  `BindingFacts` (what its forms compute);
- `CommitmentData` and `Proofs`.

## Model

| member | source | states |
|---|---|---|
| Evaluator.Eval | src/core/eval_direct.rs:391-450 | every successful evaluation only appends to memory: tables extended at their ends, no hash3 record lost, uniqueness of rows and faithfulness of hash3 records preserved |
| Evaluator.EvalBuiltinExpr | src/core/eval_direct.rs:452-777 | every successful run only appends to memory: tables extended at their ends, no hash3 record lost, uniqueness of rows and faithfulness of hash3 records preserved |
| Evaluator.EvalBinder | src/core/eval_direct.rs:460-492 | memory only grows, hash3 records stay faithful |
| Evaluator.EvalPairForm | src/core/eval_direct.rs:494-560 | memory only grows, hash3 records stay faithful |
| Evaluator.EvalTypeEq | src/core/eval_direct.rs:514-537 | memory only grows, hash3 records stay faithful |
| Evaluator.EvalEvalForm | src/core/eval_direct.rs:584-632 | memory only grows, hash3 records stay faithful |
| Evaluator.EvalBreakpoint | src/core/eval_direct.rs:679-696 | memory only grows, hash3 records stay faithful |
| Evaluator.EvalIf | src/core/eval_direct.rs:697-741 | memory only grows, hash3 records stay faithful |
| Evaluator.Equal | src/core/eval_direct.rs:1026-1077 | memory only grows, hash3 records stay faithful |
| Evaluator.EvalHide | src/core/eval_direct.rs:1611-1659 | memory only grows, hash3 records stay faithful |
| Evaluator.CarCdr | src/core/eval_direct.rs:979-1024 | memory only grows, hash3 records stay faithful |
| Evaluator.EvalUnop | src/core/eval_direct.rs:1449-1547 | memory only grows, hash3 records stay faithful |
| Evaluator.EvalOpeningUnop | src/core/eval_direct.rs:1549-1609 | memory only grows, hash3 records stay faithful |
| Evaluator.EvalBinopMisc | src/core/eval_direct.rs:1406-1447 | memory only grows, hash3 records stay faithful |
| Evaluator.EvalBinopNum | src/core/eval_direct.rs:1229-1404 | memory only grows, hash3 records stay faithful |
| Evaluator.EvalApplyBuiltin | src/core/eval_direct.rs:929-948 | memory only grows, hash3 records stay faithful |
| Evaluator.EvalList | src/core/eval_direct.rs:1165-1196 | memory only grows, hash3 records stay faithful |
| Evaluator.EvalBegin | src/core/eval_direct.rs:1198-1227 | memory only grows, hash3 records stay faithful |
| Evaluator.EvalLet | src/core/eval_direct.rs:1661-1718 | memory only grows, hash3 records stay faithful |
| Evaluator.EvalLetrecBindings | src/core/eval_direct.rs:1769-1793 | memory only grows, hash3 records stay faithful |
| Evaluator.EvalLetrec | src/core/eval_direct.rs:1795-1817 | memory only grows, hash3 records stay faithful |
| Evaluator.EvalBindBuiltin | src/core/eval_direct.rs:783-838 | memory only grows, hash3 records stay faithful |
| Evaluator.EvalEnvBuiltin | src/core/eval_direct.rs:844-889 | memory only grows, hash3 records stay faithful |
| Evaluator.EvalEnvLiteral | src/core/eval_direct.rs:891-927 | memory only grows, hash3 records stay faithful |
| Evaluator.Apply | src/core/eval_direct.rs:1819-1977 | memory only grows, hash3 records stay faithful |
| Evaluator.ApplyRest | src/core/eval_direct.rs:1862-1903 | memory only grows, hash3 records stay faithful |
| Evaluator.BindArg | src/core/eval_direct.rs:1905-1936 | memory only grows, hash3 records stay faithful |
| Evaluator.LurkMain | src/core/eval_direct.rs:124-143 | succeeds exactly when eval of the ingressed expr and env does; then the 16 outputs are the egressed value's tag word and digest |
| EvalFacts.EvalSelf | src/core/eval_direct.rs:394-447 | values of every tag but symbols, conses, fixed points and envs evaluate to themselves, memory untouched |
| EvalFacts.EvalVariable | src/core/eval_direct.rs:395-406 | a variable's value is the first binding of its name in the env (or `UnboundVar`); a fixed point found there is evaluated under the empty env |
| EvalFacts.EvalQuote | src/core/eval_direct.rs:633-643 | `(quote x)` is `x` itself |
| EvalFacts.EvalCurrentEnv | src/core/eval_direct.rs:649-657 | `(current-env)` is the current env; with arguments it is `InvalidForm` |
| EvalFacts.EvalLambda | src/core/eval_direct.rs:482-490 | `lambda` stores the closure (params, body, env) and returns it as a `Fun` |
| EvalFacts.EvalIfLiteral | src/core/eval_direct.rs:697-740 | `(if c a b)` with a literal condition evaluates `b` when `c` is nil and `a` otherwise |
| EvalFacts.EqSelf | src/core/eval_direct.rs:742-745 | `(eq x x)` of a literal is `t` |
| EvalFacts.ApplyNonFunction | src/core/eval_direct.rs:1826-1830 | applying a non-`Fun` is `ApplyNonFunc` |
| EvalFacts.ApplyNoArgs | src/core/eval_direct.rs:1905-1910 | a closure with parameters left, applied to no arguments, is returned unchanged |
| EvalFacts.ApplyRestErrors | src/core/eval_direct.rs:1860-1903 | `&rest` followed by nothing or by a symbol and more is `ParamInvalidRest`; by a non-symbol `IllegalBindingVar`; an improper list `ParamsNotList` |
| EvalFacts.ApplyThunk | src/core/eval_direct.rs:1834-1836 | a parameterless closure applied to no arguments runs its body in its own env |
| FormFacts.PairFormArgs | src/core/eval_direct.rs:494-560 | `cons`, `strcons`, `type-eq`, `type-eqq` and `apply` with other than two arguments are `InvalidForm`; with two they go to `eval_binop_misc`, the `type-eq` comparison or `eval_apply_builtin` |
| FormFacts.TypeEqq | src/core/eval_direct.rs:538-554 | `(type-eqq x e)` evaluates only `e`; an error is the result, else `t` exactly when the coerced tags of `x` and the value agree |
| FormFacts.TypeEq | src/core/eval_direct.rs:514-537 | `(type-eq a b)` evaluates `a` then `b`, errors passed through; `t` exactly when their coerced tags agree |
| FormFacts.EvalFormOne | src/core/eval_direct.rs:589-602 | `(eval e)` evaluates the value of `e` again under the empty env; an error value is the result |
| FormFacts.EvalFormTwo | src/core/eval_direct.rs:604-625 | `(eval e x)` evaluates the value of `e` again under the value of `x` when that is an env; `NotEnv` otherwise; errors passed through in order |
| FormFacts.EvalFormArity | src/core/eval_direct.rs:584-609 | `eval` with no argument or more than two is `InvalidForm` |
| FormFacts.Breakpoint | src/core/eval_direct.rs:679-696 | `(breakpoint)` is nil, `(breakpoint e)` is the value of `e`, more arguments `InvalidForm` |
| FormFacts.IfTwo | src/core/eval_direct.rs:709-718 | `(if c a)`: a nil or error condition is the result, otherwise the value of `a` |
| FormFacts.IfThree | src/core/eval_direct.rs:719-737 | `(if c a b)`: an error condition is the result; nil selects `b`, anything else `a` |
| FormFacts.IfArity | src/core/eval_direct.rs:697-740 | `if` with fewer than two or more than three arguments is `InvalidForm` |
| FormFacts.EqualValues | src/core/eval_direct.rs:1026-1077 | `eq`/`eqq` evaluate the second argument first; `eqq` compares the first as written with it, `eq` evaluates the first next; `t`, or `(Nil, 0)` for unequal; errors passed through |
| FormFacts.TwoArgForms | src/core/eval_direct.rs:1033-1046 | `eq`, `eqq` and `hide` with other than two arguments are `InvalidForm` |
| FormFacts.HideValues | src/core/eval_direct.rs:1611-1659 | `(hide s v)` evaluates `s` then `v`, errors passed through, and is `hide` of the two values |
| FormFacts.CarCdrValue | src/core/eval_direct.rs:979-1024 | both halves of a cons or non-empty string; nil and nil for nil; nil and the empty string for the empty string; an error in both halves; `NotCons` otherwise |
| FormFacts.OneArgForms | src/core/eval_direct.rs:979-997 | `car`, `cdr`, the casts, `atom`, `emit`, `commit`, `open` and `secret` with other than one argument are `InvalidForm` |
| FormFacts.UnopValue | src/core/eval_direct.rs:1449-1547 | `u64`, `char`, `atom`, `emit`, `bignum` and `comm` apply the unary primitive to the argument's value; an error value is the result |
| FormFacts.OpeningValue | src/core/eval_direct.rs:1549-1609 | `commit`, `open` and `secret` apply the opening primitive to the argument's value; an error value is the result |
| FormFacts.BinopMiscValues | src/core/eval_direct.rs:1406-1447 | `cons` stores the pair of the two values as a `Cons`; `strcons` stores it as a `Str` for a char and a string, else `NotChar` or `NotString`; errors passed through in order |
| FormFacts.BinopNumValues | src/core/eval_direct.rs:1229-1404 | a numeric operator is `NumOp` of the two values, evaluated in order, errors passed through |
| FormFacts.ApplyBuiltinValues | src/core/eval_direct.rs:929-948 | `(apply f args)` applies the value of `f` to the value of `args`, errors passed through |
| BindingFacts.ListEnds | src/core/eval_direct.rs:1165-1196 | `eval_list` of nil is nil; of anything but a cell `InvalidForm` |
| BindingFacts.ListStep | src/core/eval_direct.rs:1172-1189 | a cell's value is the stored pair of the head's value and the tail's list of values; errors passed through |
| BindingFacts.ListOfLiterals | src/core/eval_direct.rs:1165-1196 | a proper list of literals evaluates to a list holding the same elements |
| BindingFacts.BeginStep | src/core/eval_direct.rs:1198-1227 | `begin` evaluates each expression in turn; an error or the last value is the result |
| BindingFacts.BeginLiterals | src/core/eval_direct.rs:1198-1227 | `begin` of literals is the last of them, and `(begin)` is nil |
| BindingFacts.LetShapes | src/core/eval_direct.rs:1661-1718 | `let` without bindings is `begin` of the body; a non-list, a binding that is not a list, `(x)` or `(x e f …)` is `InvalidForm`; a non-symbol variable `IllegalBindingVar` |
| BindingFacts.LetStep | src/core/eval_direct.rs:1687-1708 | a binding `(x e)` binds the value of `e` to `x` in front of the env, which then evaluates the remaining bindings or the body; an error value is the result |
| BindingFacts.LetrecBindingsOutcome | src/core/eval_direct.rs:1769-1793 | a successful run is the initial env itself or an error |
| BindingFacts.LetrecBindingsStep | src/core/eval_direct.rs:1769-1793 | each env node down to the initial env must bind a fixed point (else a halt), which is evaluated under the empty env; an error value is the result |
| BindingFacts.LetrecStep | src/core/eval_direct.rs:1795-1817 | once the mutual env is built and its fixed points evaluate without error, the body runs in it |
| BindingFacts.LetrecBody | src/core/eval_direct.rs:1795-1817 | over well-formed bindings the env binds each variable, last first, to its fixed point in front of the env, and the body runs in it |
| BindingFacts.LetrecEnvError | src/core/eval_direct.rs:1799-1804 | an error building the mutual env is the result |
| BindingFacts.LetrecIllegalVar | src/core/eval_direct.rs:1731-1759 | a non-symbol variable after well-formed bindings makes `letrec` `IllegalBindingVar` |
| BindingFacts.LetrecMalformed | src/core/eval_direct.rs:1727-1762 | a malformed binding after well-formed ones makes `letrec` `InvalidForm` |
| BindingFacts.BindArity | src/core/eval_direct.rs:783-808 | `bind` with other than three arguments is `InvalidForm` |
| BindingFacts.BindVar | src/core/eval_direct.rs:809-838 | a non-symbol first value is `IllegalBindingVar` (an error passes through); an error second value is the result |
| BindingFacts.BindValues | src/core/eval_direct.rs:809-831 | a non-env third value is `NotEnv` (an error passes through); an env gets the new node `(x, v, env)` in front |
| BindingFacts.BindChain | src/core/eval_direct.rs:809-838 | the env `bind` returns has the bindings of its env argument with the new one in front |
| BindingFacts.EnvBuiltinEnds | src/core/eval_direct.rs:844-889 | `(env)` is the empty env; an improper argument list `InvalidForm` |
| BindingFacts.EnvBuiltinStep | src/core/eval_direct.rs:853-883 | each value must be a pair (else `NotCons`) headed by a symbol (else `IllegalBindingVar`), bound in front of the env of the rest; errors passed through |
| BindingFacts.EnvBuiltinOutcome | src/core/eval_direct.rs:844-889 | a successful run is an env or an error |
| BindingFacts.EnvLiteralStep | src/core/eval_direct.rs:891-927 | each node must bind a symbol (else `IllegalBindingVar`); its value is bound in front of the evaluated rest; errors passed through |
| BindingFacts.EnvLiteralOfLiterals | src/core/eval_direct.rs:891-927 | an env literal binding symbols to literals evaluates to an env with the same bindings |
| BindingFacts.ThunkStep | src/core/eval_direct.rs:1834-1856 | a parameterless closure runs its body in its own env; the value is the result for no arguments, is applied to a list of arguments, else `ArgsNotList`; an error value is the result |
| BindingFacts.ApplyParams | src/core/eval_direct.rs:1831-1977 | a parameter list that is no list is `ParamsNotList`; `&rest` goes to the rest case, any other first parameter to argument binding |
| BindingFacts.BindArgShapes | src/core/eval_direct.rs:1905-1936 | no arguments gives the closure back, an improper argument list is `ArgsNotList`, a non-symbol parameter `IllegalBindingVar` |
| BindingFacts.ArgBound | src/core/eval_direct.rs:1905-1936 | the value of the first argument is bound to the parameter in front of the closure's env, and the closure over the remaining parameters is applied to the remaining arguments |
| BindingFacts.RestBound | src/core/eval_direct.rs:1862-1903 | the list of all argument values is bound to the `&rest` variable, and the closure over what follows is applied to no arguments |
| BindingFacts.BoundEnv | src/core/eval_direct.rs:1884-1885 | the new closure's env binds the parameter in front of the old env |
| BindingFacts.ApplyOne | src/core/eval_direct.rs:1819-1936 | a one-parameter closure applied to one literal runs its body in its env extended by that binding |
| Arena.Load | src/core/eval_direct.rs:409 | a loaded row has the table's arity, and pointer 0 loads nothing |
| Arena.IndexOf | src/core/eval_direct.rs:489 | the position of the first occurrence of a row, or the table's length when it is absent |
| Arena.Store | src/core/eval_direct.rs:489 | the pointer loads back the stored row; the tables only grow, uniqueness is kept; a present row leaves memory as it is, a new one is appended at the end |
| Arena.StoreIdempotent | src/core/eval_direct.rs:489 | storing the same row twice changes nothing the second time and gives the same pointer |
| Arena.StoreFindsExisting | src/core/eval_direct.rs:396-409 | in a content-addressed memory, storing a loaded row gives back the pointer it was loaded from |
| Arena.StoreInjective | src/core/eval_direct.rs:489 | two stores that give the same pointer stored the same row |
| Arena.RecordHash | src/core/eval_direct.rs:1649 | a hash3 call records its preimage under its digest, and no table changes |
| Arena.Preimg | src/core/eval_direct.rs:968-972 | `preimg` finds a preimage exactly for a recorded digest, and it is the recorded one |
| Arena.PreimgAfterHash | src/core/eval_direct.rs:964-977 | with an injective hash3, a digest once produced inverts to its preimage in every grown, faithful memory |
| Layout.Exactly | src/core/eval_direct.rs:495-508 | the fixed-arity check leaves memory as it is, and a pass yields exactly `n` elements forming the list |
| Layout.ExactlyList | src/core/eval_direct.rs:495-508 | a proper list of `n` elements passes the check of arity `n` and fails every other |
| Envs.EnvLookup | src/core/eval_direct.rs:1979-1997 | looking up never changes memory |
| Envs.EnvLookupChain | src/core/eval_direct.rs:1979-1997 | on an env holding bindings `bs`, `env_lookup` returns the reference lookup of `bs` |
| Envs.LookupFirst | src/core/eval_direct.rs:1988-1993 | the reference lookup yields the value of the first matching binding |
| Envs.LookupAbsent | src/core/eval_direct.rs:1982-1986 | with no matching binding the lookup is `UnboundVar` |
| Envs.Shadowing | src/core/eval_direct.rs:1988-1993 | a binding in front shadows every later binding of the same name |
| Envs.Push | src/core/eval_direct.rs:1884-1885 | storing a binding node in front of an env extends its binding list at the front |
| Equality.EqualInner | src/core/eval_direct.rs:1079-1163 | `equal_inner` never changes memory |
| Equality.EqualCells | src/core/eval_direct.rs:1127-1133 | comparing two pairs never changes memory |
| Equality.EqualNodes | src/core/eval_direct.rs:1135-1144 | comparing two closures or env nodes never changes memory |
| Equality.Reflexive | src/core/eval_direct.rs:1088-1091 | every value equals itself |
| Equality.FastPaths | src/core/eval_direct.rs:1082-1096 | different tags are unequal; two `Num`s are equal exactly when their pointers are |
| Equality.EmptyOnlyItself | src/core/eval_direct.rs:1146-1150 | the empty string and the empty env equal only themselves |
| Equality.Symmetric | src/core/eval_direct.rs:1079-1163 | the comparison is symmetric, down to the halt it reports |
| Mutuals.ExtendEnvWithMutuals | src/core/eval_direct.rs:1721-1766 | the result only appends to memory and is an env or an error |
| Mutuals.ExtendBinding | src/core/eval_direct.rs:1731-1747 | only appends to memory and returns an env or an error (the shape checks of one binding) |
| Mutuals.ExtendFix | src/core/eval_direct.rs:1748-1762 | only appends to memory and returns an env or an error (one binding bound to its fixed point, then the walk continues) |
| Mutuals.PushFix | src/core/eval_direct.rs:1751-1753 | the new env node binds the variable to `Fix(expr, (Cons, mutual_binds), mutual_env)` in front of the old env |
| Mutuals.ExtendAll | src/core/eval_direct.rs:1721-1766 | on a well-formed binding list the result is an env binding every variable, last first, to its fixed point over the same mutual bindings and env |
| Mutuals.LetrecEnv | src/core/eval_direct.rs:1795-1817 | the letrec env binds all the variables, last first, in front of the original env |
| Mutuals.ExtendPrefix | src/core/eval_direct.rs:1748-1755 | after well-formed bindings the walk goes on at what follows them, in a grown memory, with one unit of fuel spent per binding |
| Mutuals.IllegalVar | src/core/eval_direct.rs:1731-1759 | a 2-element binding whose variable is not a symbol, at any position after well-formed bindings, is `IllegalBindingVar` |
| Mutuals.MalformedBinding | src/core/eval_direct.rs:1727-1762 | at any position after well-formed bindings, a tail that is not a list, a binding that is not a list, `(x)` and `(x e f …)` are `InvalidForm` |
| Mutuals.FixChainStable | src/core/eval_direct.rs:1751-1753 | fixed point bindings stay readable in every grown memory |
| Prims.U64Binop | src/core/eval_direct.rs:1254-1319 | 64-bit operations give a stored word, `t`/nil, or `DivByZero`, and only append |
| Prims.U64ArithValue | src/core/eval_direct.rs:1254-1281 | `+ - * / %` on two words store the bytes of the exact result modulo 2^64 |
| Prims.U64DivByZero | src/core/eval_direct.rs:1268-1272 | `/` and `%` by the zero word are `DivByZero`, whatever the dividend |
| Prims.U64Compare | src/core/eval_direct.rs:1283-1318 | `< > <= >=` compare the words' values; `=` compares their bytes |
| Prims.DivRem | src/core/eval_direct.rs:1273-1280 | the quotient or remainder is stored as a word holding the value modulo 2^64 |
| Prims.FieldBinop | src/core/eval_direct.rs:1321-1353 | field results are reduced modulo P, or `t`/nil, or an error |
| Prims.FieldDivInverse | src/core/eval_direct.rs:1335-1340 | field division by a nonzero element coprime to P, times that element, gives the dividend back |
| Prims.FieldEq | src/core/eval_direct.rs:1342-1347 | field `=` is equality modulo P |
| Prims.BigNumBinop | src/core/eval_direct.rs:1355-1397 | big numbers only compare, memory untouched; arithmetic on them is `InvalidArg` |
| Prims.NumOp | src/core/eval_direct.rs:1250-1401 | operands of mismatched types are `InvalidArg` |
| Prims.NumOpErrors | src/core/eval_direct.rs:1335-1401 | field `/` by zero is `DivByZero`; field `%` and orderings `NotU64`; big-number arithmetic and mismatched operands `InvalidArg` |
| Prims.Unop | src/core/eval_direct.rs:1470-1543 | `emit` passes its value through; `atom` is `t` exactly for non-conses |
| Prims.Retag | src/core/eval_direct.rs:1518-1539 | `bignum`/`comm` of a big number or commitment keep the pointer and change only the tag |
| Prims.CastErrors | src/core/eval_direct.rs:1487-1542 | casts from other types are the matching `CantCastTo…` error |
| Prims.CharU64RoundTrip | src/core/eval_direct.rs:1487-1513 | `u64` of a char has the char's value, and `char` of it gives the same 4 bytes back |
| Prims.LeValuePadded | src/core/eval_direct.rs:1493-1496 | zero padding on the high side keeps a little-endian value |
| Field.DivMul | src/core/eval_direct.rs:1339 | quotient times divisor is the dividend modulo P when the divisor is invertible |
| Lang.CoerceIfSym | src/core/eval_direct.rs:950-962 | nil and `t` coerce to `Sym`; every other tag stays |
| Commitments.CommPreimage | src/core/eval_direct.rs:1646-1649 | the preimage is the secret followed by the flattened payload |
| Commitments.Commit | src/core/eval_direct.rs:1573-1580 | a commitment is a stored `Comm` digest of the preimage, with the preimage recorded |
| Commitments.Hide | src/core/eval_direct.rs:1644-1656 | a non-`BigNum` secret is `NotBigNum`; otherwise the commitment under the stored secret |
| Commitments.Opening | src/core/eval_direct.rs:1570-1606 | `commit` is hiding under the all-zero secret; `open` of a non-commitment is `CantOpen`; `open` opens |
| Commitments.Opened | src/core/eval_direct.rs:1584-1592 | the opened secret and payload are the parts of the recorded preimage |
| Commitments.OpenComm | src/core/eval_direct.rs:964-977 | `open_comm` succeeds exactly when the preimage is found, and ingresses its payload |
| Commitments.OpenCommit | src/core/eval_direct.rs:1584-1596 | under a collision-free hash3, opening a commitment in any grown memory gives back its secret and value |
| Commitments.SecretOfHide | src/core/eval_direct.rs:1597-1601 | `secret` of `hide s v` is `s` itself |
| CommitmentData.New | src/core/cli/comm_data.rs:34-46 | the secret and payload are kept as given |
| CommitmentData.ZStore.Hash3 | src/core/cli/comm_data.rs:28 | the digest is hash3 of the preimage, recorded in the store |
| CommitmentData.ZStore.Hash | src/core/cli/comm_data.rs:20-29 | the array filled with secret then flattened payload is the commitment preimage; its digest is recorded |
| CommitmentData.ZStore.ComputeDigest | src/core/cli/comm_data.rs:48-53 | the digest of the data's preimage |
| CommitmentData.ZStore.Commit | src/core/cli/comm_data.rs:55-61 | the `Comm` pointer of that digest, the same for the same data |
| CommitmentData.ZStore.InternComm | src/core/cli/comm_data.rs:69 | the digest joins the interned commitments |
| CommitmentData.ZStore.PopulateZStore | src/core/cli/comm_data.rs:63-71 | the data's digest is interned and its preimage recorded |
| CommitmentData.PreimageSplits | src/core/cli/comm_data.rs:25-27 | the preimage splits back into the secret and the payload |
| CommitmentData.ZStore.CommitHidden | src/core/cli/comm_data.rs:55-61 | committing `(secret, egress(v))` through the store gives the digest `hide` stores for `v` under that secret, records the preimage the evaluator records, and changes nothing else |
| CommitmentData.CommitBinding | src/core/cli/comm_data.rs:20-29 | under a collision-free hash3, equal digests come from equal data |
| Proofs.PublicValues | src/core/cli/proofs.rs:51-55 | expr's flat form, the env digest, result's flat form, then 4 byte limbs whose value is the depth |
| Proofs.MachineProofOf | src/core/cli/proofs.rs:56-75 | one shard per shard body, each with the same public values |
| Proofs.IntoMachineProof | src/core/cli/proofs.rs:45-76 | the vector built by extending is the layout, and the machine proof is the reference one |
| Proofs.FromMachineProof | src/core/cli/proofs.rs:86-129 | succeeds exactly with shards, equal public values and byte-valued depth limbs; keeps the bodies, decodes the depth, takes the build's version |
| Proofs.CachedProofNew | src/core/cli/proofs.rs:145-165 | succeeds exactly when both flat pointers decode; expr, env retagged `Env`, and result are the three slices |
| Proofs.CachedIntoMachineProof | src/core/cli/proofs.rs:167-177 | re-proves with the cached values |
| Proofs.MachineRoundTrip | src/core/cli/proofs.rs:45-129 | decoding a machine proof gives back the shards and depth with the build's version; no shards aborts |
| Proofs.FromMachineVersion | src/core/cli/proofs.rs:78-81 | a decoded proof passes `has_same_verifier_version` (HasSameVerifierVersion) for the same build and for no other |
| Proofs.CachedRoundTrip | src/core/cli/proofs.rs:150-156 | splitting the public values recovers expr, result and the env digest tagged `Env` |
| Proofs.CachedReprove | src/core/cli/proofs.rs:167-177 | a cached proof of an env rebuilt from public values re-proves to the same machine proof |
| Tags.FlatRoundTrip | src/core/cli/proofs.rs:154-156 | reading a flattened persisted pointer gives the pointer back |
| Words.Zero | src/gadgets/unsigned/mod.rs:81-83 | all limbs are 0 |
| Words.One | src/gadgets/unsigned/mod.rs:86-96 | limb 0 is 1 and every other limb is 0 |
| Words.FromUnsigned | src/gadgets/unsigned/mod.rs:98-100 | W byte limbs whose little-endian value is the number |
| Words.FromUnsignedOfValue | src/gadgets/unsigned/mod.rs:98-100 | byte limbs are the encoding of their own value |
| Words.ZeroOneValues | src/gadgets/unsigned/mod.rs:81-100 | zero and one are the encodings of 0 and 1 |
| Words.Map | src/gadgets/unsigned/mod.rs:39-44 | same width, f applied to each limb |
| Words.MapCompose | src/gadgets/unsigned/mod.rs:39-52 | mapping twice is mapping the composition |
| Words.FromIter | src/gadgets/unsigned/mod.rs:177-188 | succeeds exactly for W items, keeping their order |
| Words.ByteChecks | src/gadgets/unsigned/mod.rs:119 | one range check per byte, in order |
| Words.ByteRecord.RangeCheckU8Iter | src/gadgets/unsigned/mod.rs:119 | the record gains a check for every value |
| Words.UncheckedWord.AssignBytes | src/gadgets/unsigned/mod.rs:114-120 | limb i becomes byte i and every byte is range-checked |
| Words.UncheckedWord.IntoChecked | src/gadgets/unsigned/mod.rs:124-134 | limbs unchanged, each range-checked with the `is_real` multiplicity |
| Words.UncheckedWord.IntoUnchecked | src/gadgets/unsigned/mod.rs:136-138 | limbs unchanged |

## Left out

- Ingress and egress are fields of the context. They neither read nor extend memory, and nothing relates them, so `open` yields `ingress(egress(v))` rather than `v`.
- Evaluator.EvalBuiltinExpr: its contract states memory growth only; its values are pinned per form by the FormFacts and BindingFacts lemmas and by EvalFacts.EvalQuote, EvalFacts.EvalCurrentEnv and EvalFacts.EvalLambda, not as one statement over every head.
- Evaluator.EvalBinder: its contract states memory growth only; `lambda` is pinned by EvalFacts.EvalLambda, `let` and `letrec` by the BindingFacts lemmas; the dispatch itself is not stated.
- Evaluator.EvalPairForm: its contract states memory growth only; arity and dispatch are pinned by FormFacts.PairFormArgs, `type-eqq` by FormFacts.TypeEqq.
- Evaluator.EvalTypeEq: its contract states memory growth only; its value is pinned by FormFacts.TypeEq.
- Evaluator.EvalEvalForm: its contract states memory growth only; its value is pinned by FormFacts.EvalFormOne, FormFacts.EvalFormTwo and FormFacts.EvalFormArity; an argument list ending in neither nil nor a cell (`NotEnv`) is not stated.
- Evaluator.EvalBreakpoint: its contract states memory growth only; its value is pinned by FormFacts.Breakpoint.
- Evaluator.EvalIf: its contract states memory growth only; its value is pinned by FormFacts.IfTwo, FormFacts.IfThree and FormFacts.IfArity.
- Evaluator.Equal: its contract states memory growth only; its value is pinned by FormFacts.EqualValues and FormFacts.TwoArgForms.
- Evaluator.EvalHide: its contract states memory growth only; its value is pinned by FormFacts.HideValues and FormFacts.TwoArgForms.
- Evaluator.CarCdr: its contract states memory growth only; its value is pinned by FormFacts.CarCdrValue and FormFacts.OneArgForms.
- Evaluator.EvalUnop: its contract states memory growth only; its value is pinned by FormFacts.UnopValue and FormFacts.OneArgForms.
- Evaluator.EvalOpeningUnop: its contract states memory growth only; its value is pinned by FormFacts.OpeningValue and FormFacts.OneArgForms.
- Evaluator.EvalBinopMisc: its contract states memory growth only; its value is pinned by FormFacts.BinopMiscValues.
- Evaluator.EvalBinopNum: its contract states memory growth only; its value is pinned by FormFacts.BinopNumValues; arity by the check in EvalBuiltinExpr, not by a lemma.
- Evaluator.EvalApplyBuiltin: its contract states memory growth only; its value is pinned by FormFacts.ApplyBuiltinValues.
- Evaluator.EvalList: its contract states memory growth only; its value is pinned step by step by BindingFacts.ListEnds and BindingFacts.ListStep, and in closed form only for lists of literals (BindingFacts.ListOfLiterals).
- Evaluator.EvalBegin: its contract states memory growth only; its value is pinned step by step by BindingFacts.BeginStep, and in closed form only for literals (BindingFacts.BeginLiterals).
- Evaluator.EvalLet: its contract states memory growth only; its value is pinned step by step by BindingFacts.LetShapes and BindingFacts.LetStep.
- Evaluator.EvalLetrecBindings: its contract states memory growth only; its outcome is pinned by BindingFacts.LetrecBindingsOutcome and BindingFacts.LetrecBindingsStep.
- Evaluator.EvalLetrec: its contract states memory growth only; its value is pinned by BindingFacts.LetrecBody, LetrecStep, LetrecEnvError, LetrecIllegalVar and LetrecMalformed.
- Evaluator.EvalBindBuiltin: its contract states memory growth only; its value is pinned by BindingFacts.BindArity, BindVar, BindValues and BindChain.
- Evaluator.EvalEnvBuiltin: its contract states memory growth only; its value is pinned step by step by BindingFacts.EnvBuiltinEnds and EnvBuiltinStep, its outcome by EnvBuiltinOutcome.
- Evaluator.EvalEnvLiteral: its contract states memory growth only; its value is pinned step by step by BindingFacts.EnvLiteralStep, and in closed form only for literal bindings (BindingFacts.EnvLiteralOfLiterals).
- Evaluator.Apply: its contract states memory growth only; its value is pinned per case by EvalFacts.ApplyNonFunction, EvalFacts.ApplyThunk, BindingFacts.ThunkStep, BindingFacts.ApplyParams and BindingFacts.ApplyOne.
- Evaluator.ApplyRest: its contract states memory growth only; its value is pinned by BindingFacts.RestBound and EvalFacts.ApplyRestErrors.
- Evaluator.BindArg: its contract states memory growth only; its value is pinned by BindingFacts.BindArgShapes, BindingFacts.ArgBound and EvalFacts.ApplyNoArgs.
- Commitments.OpenCommit: states `ingress(egress(v))`, not `v`, because ingress∘egress is not part of this model.
- `preallocate_symbols` and the ingress of symbols: the built-in and nil/t/&rest pointers are a map in the context.
- Poseidon2 is left out: hash3 is any function, with collision freedom assumed where binding is claimed. `big_num_lessthan` is the context's `bigNumLess`, since misc.rs is not part of this model.
- The numeric codes of tags and errors: tag.rs and error.rs are not part of this model. Codes are chosen distinct, and a tag code that does not decode halts (`Panic`).
- Coroutines: with the empty coroutine set a `Coroutine` head halts (`Panic`). `eval_coroutine_expr` is not modelled.
- `emit` and `breakpoint` side effects: both pass the value through. `fail` halts.
- Fuel: every function carries a fuel bound, because evaluation need not end. `OutOfFuel` is an outcome the source does not have.
- Field.DivMul: states the inverse property under the side condition that the divisor is coprime to P. The primality of P is not proved.
- Prims.FieldDivInverse: requires `Egcd(b % P, P).g == 1` besides a nonzero divisor, because the primality of P, which would make every nonzero element coprime to P, is not proved.
- `equal`'s false result is `(Nil, 0)` as written, not the nil symbol pointer.
- `build_lurk_toplevel`, the chip construction and the constraint-width tests are arithmetization detail.
- The sp1 shard contents are carried opaquely, and serde is not modelled.
- The build's `VERGEN_GIT_SHA` is the `build` parameter. The `with_capacity(40)` hint has no effect on the result.
- `ZPtr::from_flat_data` is FromFlat: a tag that is not persisted aborts (`None`).
- The zdag is not part of this model: `populate_with`, `populate_with_many`, `is_flawed`, `payload_is_flawed` and the replay in `populate_zstore` (zdag.rs).
- `ByteRecord` only records which values were submitted for a range check with which multiplicity. Byte lookups are not modelled.
- Rust panics (`expect`, `assert!`) in `From<MachineProof>`, `CachedProof::new` and `from_iter` are the `None` outcome. The `assert_eq!(bytes.len(), W)` of `assign_bytes` (mod.rs:115) is the precondition `|bytes| == limbs.Length` of Words.UncheckedWord.AssignBytes.
