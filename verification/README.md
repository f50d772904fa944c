# Verified models of the pp compiler and of the network glue

These Dafny modules model the front and middle end of the pp compiler (`pplc/src`) and the buffers
of the uIP glue (`ppos/boot`), and prove what each part is for.

- **Monomorphisation** (`Ast`, `Names`, `Mono`, `MonoFlat`, `MonoSound`, `MonoClosed`, `Meaning`,
  `MonoShapes`, `MonoPreserve`, `MonoUses`, `MonoExpand`, `MonoAccepts`, `MonoClass`). The rewriter with its books of instantiated, active and
  generated names, on every program, polymorphic recursion included. Its termination measure is the
  set of templates that are not active, then the size of the tree; the limit of 256 instances plays no
  part in it. The main results: the output means the same on every machine, it is closed, names of
  instances are uniquely decodable, and it is known exactly which programs are rewritten.
- **Lowering** (`Values`, `Graph`, `Scopes`, `Source`, `Control`, `Continuing`, `Lower`, `LowerExprs`,
  `LowerFrames`, `LowerRuns`, `LowerTheorems`, `LowerLimits`, `LowerShape`, `LowerTypes`, `LowerAccepts`,
  `SwitchCheck`, `ArithLaws`, `LowerClass`). Structured statements become basic blocks of a small machine that stands for LLVM.
  The main results: the machine halts exactly when the function ends, with the same result, statics
  and calls; an accepted function is lowered exactly if no implicit conversion in it narrows; and the
  blocks are well formed exactly for bodies with nothing after a jump.
- **Types and scopes** (`Sema`, `Patterns`, `SemaAgrees`, `Walks`, `WalksAgree`, `Typing`, `TypingIff`,
  `Supported`, `Soundness`, `SemaClass`). Semantic analysis and code generation compute types and visible
  declarations twice, in different ways; they agree. Semantic analysis accepts exactly what typing rules
  allow that know no scopes and no order of computation (`Typing`). Accepted functions run without type
  errors (`Soundness`), and so does their code (`Compiled`, which joins this part to lowering).
- **Layout** (`Layout`, `LayoutClass`). The bound on sizes that decides how many slots an enum gets.
- **Parsing** (`Tokens`, `Parser`, `ParserClass`, `Notations`, `Printer`, `TextAppend`, `TypeLocality`,
  `RoundTrip`, `ExprRoundTrip`, `ExprAccepts`, `ParserTheorems`, `Climb`). A grammar of its own says which
  tokens are a notation of an expression or a type, with redundant parentheses and all. The parser reads
  exactly the notations, the speculative reading of `name[` included, and precedence climbing finds the
  one correct tree.
- **Lexing** (`Decimals`, `Lexing`, `LexRoundTrip`, `LexAccepts`, `LexerClass`, `SourceText`). What is
  written in any notation is read back, and only notations are read.
- **Imports** (`Imports`, `ImportOrder`, `ImportTheorems`, `ImportClass`). A depth-first walk over a
  file graph that may be cyclic.
- **uIP glue** (`LibC`, `Glue`, `GlueClass`). A ring buffer and a shifting send buffer under any
  interleaving of callbacks and calls.

Code that changes state in the original is a class or a method with loops here (`MonoClass`,
`LowerClass`, `SemaClass`, `LayoutClass`, `ParserClass`, `LexerClass`, `ImportClass`, `GlueClass`,
`LibC`, `Patterns`), proved to compute a function about which the theorems are.

## Findings

Where the code does less than its design suggests, the exact extent is proved.

- **Names of instances collide for nested tuples.** Nothing in a key ends a tuple. Two names are equal
  exactly when the argument types agree after the ends of tuples are forgotten (`Names.MangleCollision`);
  `Names.TuplesCollide` gives a pair.
- **Whether a generic program is accepted depends on the order of its items.** An expansion that meets
  another instance of a template still being expanded is refused, but one that was expanded before is
  not. `MonoAccepts.OrderMatters` is a program that is accepted in one order and refused in the other;
  `MonoAccepts.SucceedsIff` gives the condition, which speaks of the first route to each instance.
- **Acceptance by semantic analysis does not imply that code is generated.** A `u64` where a `u8` or
  `u16` is wanted is accepted there and refused by the conversion. On the supported functions that is
  the only reason (`LowerAccepts.LoweredUnlessNarrowing`).
- **`continue` in a loop over a range starts the same round again**, because it jumps past the increment
  (`pplc/src/codegen.rs:945`, `976-984`). Every lowered function behaves as the source would if it
  meant that (`LowerTheorems.LoweringExact`). The two meanings agree in every run that continues no
  such round (`LowerTheorems.LoweringCorrect`), and a round that is continued without having changed
  anything never ends (`LowerLimits.RangeLoopStalls`).
- **In the headers of `for` and `switch` an index can be lost.** The parser takes `a[i] {` for a name
  with type arguments and drops the bracket, also under operators: `-a[i] {` reads as `-a`. What is
  read is computed exactly (`ParserTheorems.HeaderReads`), and a header expression is read back exactly
  when it has no struct literal and does not end in such a bracket (`ParserTheorems.HeaderReadBack`).
- **A function pointer named like a function** is preferred by code generation and passed over by
  semantic analysis. They agree exactly if both return the same (`SemaAgrees.CallAgreesIff`);
  `SemaAgrees.PointerHidesFunction` is a program on which they do not.
- **A local named like a static hides it from the functions that follow.** The types of statics survive
  a function exactly if its parameters and outermost locals avoid their names
  (`WalksAgree.StaticsIntactIff`).
- **The code for statements after a jump** has blocks with two ends. They are well formed exactly if
  nothing follows a jump in its block and no range loop ends in one (`LowerShape.WellFormedIffTidy`).
- **Connecting without a free connection** answers like bad input, but has already dropped the bytes of
  the connection before (`Glue.FailedCallsChangeNothing`).

## Model

| member | source | states |
|---|---|---|
| MonoPreserve.MeaningPreserved | pplc/src/mono.rs:143-493 | Every plain function of a program without tuples as type arguments and without reserved names runs alike in the program the rewriter returns: on every machine, from every state, with any fuel, with the same result, state and fuel used. |
| MonoClosed.RunSound | pplc/src/mono.rs:9-49 | A successful run returns the generated types, the flat form of the items and the generated functions, in this order, and keeps its books consistent throughout. |
| MonoClosed.BooksClosed | pplc/src/mono.rs:9-49 | After a successful run nothing is active, the instantiated names are exactly the generated ones, each generated once, and there are at most 256. What the definitions under these names are, OutputPlain and OutputClosed say. |
| MonoClosed.OutputPlain | pplc/src/mono.rs:143-247 | No item of the output holds an applied type or a type argument, outside extern prototypes, switch patterns and the plain argument of sizeof and alignof. |
| MonoClosed.OutputClosed | pplc/src/mono.rs:178-247 | Every instance that the rewritten items or a generated definition refer to has exactly one definition, which is that of its own template under its own arguments. |
| MonoAccepts.SucceedsIff | pplc/src/mono.rs:58-260 | A program without tuples as type arguments and without reserved names is rewritten exactly if no definition and no type parameter is repeated, all uses in plain items and demanded definitions give type arguments to templates and as many as these take, no extern function is generic, at most 256 instances are demanded, and no first route to an instance passes two instances of one template. |
| MonoAccepts.OrderMatters | pplc/src/mono.rs:185-260 | A program of two statics that is rewritten, and the same with the statics swapped, which is refused. |
| MonoExpand.RewritesIffExpands | pplc/src/mono.rs:143-260 | On such programs without repetitions, the rewriting with its books of names succeeds exactly if the plain items are well applied and the walk from use to use succeeds, which knows only instances: no more than 256, and none of a template that is being expanded. |
| MonoClass.Monomorphizer.RunMonomorphizer | pplc/src/mono.rs:9-130 | The rewriter that updates its sets and lists in place returns what the specification function returns, errors included. |
| Names.MangleCollision | pplc/src/mono.rs:858-861 | Two mangled names are equal exactly when the templates and the flattened symbols of the arguments are, for all arguments. |
| Names.MangleInjective | pplc/src/mono.rs:858-897 | Names are unique for arguments without tuples and unexpanded generic types, given that uses of one template have equally many arguments. |
| Names.SymbolsPrefixFree | pplc/src/mono.rs:867-897 | On such types keys are prefix-free, whatever follows them. |
| Names.TuplesCollide | pplc/src/mono.rs:891-896 | For every template, two different argument lists with nested tuples get the same name. |
| Names.InstanceOfMangle | pplc/src/mono.rs:863-865 | The prefix test on a mangled name holds exactly for the template that was mangled. |
| LowerTheorems.LoweringExact | pplc/src/codegen.rs:480-528 | For every lowered function, all inputs and any fuel: the machine ends as the function does if a continued round of a range loop starts again, with the same result, statics and calls, in error when it is, and runs on while it has not ended. |
| LowerTheorems.LoweringCorrect | pplc/src/codegen.rs:655-995 | The same against the language's own meaning of `continue`, in every run that continues no round of a range loop, and in all runs of functions whose range loops have no `continue`. |
| LowerTheorems.HaltsIffEnds | pplc/src/codegen.rs:480-528 | Without `continue` in a range loop the machine halts with a result, statics and calls exactly if the function ends with them for some fuel. |
| LowerTheorems.HaltsIffRepeatingEnds | pplc/src/codegen.rs:480-528 | For all functions, the same under the meaning that the generated code gives to `continue`. |
| LowerRuns.StmtsRun | pplc/src/codegen.rs:655-860 | The simulation behind it: from any aligned state the blocks of a statement list reach the place that fits how the statements were left, with aligned variables. |
| LowerRuns.ForBodyRuns | pplc/src/codegen.rs:938-986 | One round of a range loop: the counter goes up after a round that ends normally and stays after one that is continued. |
| LowerExprs.ExprRuns | pplc/src/codegen.rs:1502-1826 | The instructions of an expression leave its value in the operand and make the same calls, or get stuck when it has none. |
| LowerExprs.StaticTypeSound | pplc/src/codegen.rs:1828-1977 | The type found for an expression is the type of the value it has. |
| LowerTypes.StaticTypeIsTypeof | pplc/src/codegen.rs:1828-1977 | On lowered expressions the type that lowering works with is the one that code generation looks up. |
| Continuing.RoundForEver | pplc/src/codegen.rs:976-984 | If a continued round starts again and has changed nothing, the loop never ends, whatever the fuel. |
| LowerLimits.RangeLoopStalls | pplc/src/codegen.rs:938-986 | A range loop whose first round is continued without having changed a variable or made a call keeps the machine busy for ever, wherever it stands. |
| LowerLimits.SkipLoopStalls | pplc/src/codegen.rs:976-984 | A concrete loop of this kind, which in the source ends after one round. |
| LowerLimits.SkipLoopLowers | pplc/src/codegen.rs:863-995 | That loop is lowered without complaint, wherever it stands. |
| LowerTheorems.RunsForEver | pplc/src/codegen.rs:480-528 | As long as a function has not ended under the code's meaning of `continue`, the machine is running. |
| LowerAccepts.LoweredUnlessNarrowing | pplc/src/codegen.rs:382-430 | A supported function that semantic analysis accepts is lowered exactly if no implicit conversion in it goes from u64 to u8 or u16, on the types that semantic analysis finds. |
| Compiled.CompiledRunsWell | pplc/src/codegen.rs:480-528 | The code of such a function, called with arguments and statics of their types, never reaches the trap of a switch at any step and never goes wrong but where the function meets arithmetic that has no result; when it halts, the result has the return type, and is missing exactly for void. |
| ArithLaws.ExactInRange | pplc/src/codegen.rs:2722-2747 | Sums, differences and products are those of the integers that the bits stand for, signed for int, whenever these have a bit pattern. |
| ArithLaws.DivisionLaw | pplc/src/codegen.rs:2738-2746 | Quotient and remainder give back the dividend; the remainder is smaller than the divisor and has the sign of the dividend; they are undefined exactly for a zero divisor and for the one quotient out of range. |
| ArithLaws.OrderLaw | pplc/src/codegen.rs:2790-2850 | Comparisons compare the integers that the bits stand for. |
| ArithLaws.BitsLaw | pplc/src/codegen.rs:2686-2703 | The bitwise operators work on each bit by itself. |
| ArithLaws.ShiftLaw | pplc/src/codegen.rs:2705-2720 | Shifts multiply and divide by powers of two, without the sign, and are undefined exactly from the width on. |
| LowerShape.WellFormedIffTidy | pplc/src/codegen.rs:480-528 | Every block of a lowered function ends in its only jump exactly if nothing follows a jump in a block of the body and no range loop's body ends in one. |
| LowerClass.Generator.GenerateStmt | pplc/src/codegen.rs:655-771 | Code generation that appends to the current block, inserts into the name map and uses the loop stack in place leaves the blocks and names that the specification function returns, and fails when it does. |
| LowerClass.Generator.GenerateIf | pplc/src/codegen.rs:788-827 | The same for both forms of if. |
| LowerClass.Generator.GenerateWhile | pplc/src/codegen.rs:829-860 | The same for while, with the loop stack back to what it was. |
| LowerClass.Generator.GenerateFor | pplc/src/codegen.rs:863-995 | The same for loops over a range. |
| LowerClass.Generator.GenerateSwitch | pplc/src/codegen.rs:997-1118 | The same for switch, with its table of cases and the trap. |
| LowerClass.Generator.GenerateEnum | pplc/src/codegen.rs:1456-1496 | The same for constructors of enums. |
| LowerClass.GenerateFunction | pplc/src/codegen.rs:480-528 | The graph of a function is that of the specification, or there is none. |
| Patterns.CheckSwitch | pplc/src/sema.rs:324-405 | The check that fills a set of seen variants accepts exactly the switches whose arms name each variant at most once, with fitting bindings, and that name all of them or end in a wildcard. |
| Patterns.PatternNamesEnum | pplc/src/sema.rs:351-357 | A pattern over an instance of a template fits exactly if it names that instance or the template, a variant of it, and a binding exactly if the variant has a payload. |
| Patterns.PatternNamesPlainEnum | pplc/src/sema.rs:351-357 | A pattern over an enum that is no instance names that enum. |
| SwitchCheck.SwitchIsComplete | pplc/src/codegen.rs:1033-1062 | In an accepted switch every tag of the enum has exactly one arm, which the source selects and to which the jump table leads, not to the trap. |
| SwitchCheck.ConstructedIsBound | pplc/src/codegen.rs:1066-1103 | Switching on what a constructor made selects the arm of its variant and binds the payload, converted to the variant's type. |
| SwitchCheck.ZeroIsBound | pplc/src/codegen.rs:332-380 | Switching on a value initialised to zero selects the arm of the first variant, with a payload of zero. |
| SemaAgrees.TypesAgree | pplc/src/sema.rs:416-704 | Whenever semantic analysis gives an expression a type, code generation gives it the same, where no visible function pointer has the name of a function. |
| SemaAgrees.CallAgreesIff | pplc/src/codegen.rs:1828-1977 | Without that condition they agree on a call exactly if a visible function pointer of that name returns what the function does. |
| SemaAgrees.PointerHidesFunction | pplc/src/codegen.rs:1828-1977 | A program on which they give a call different types. |
| SemaAgrees.CommonAgrees | pplc/src/sema.rs:771-791 | The two computations of the common type of integers agree. |
| SemaAgrees.BuiltinsAgree | pplc/src/sema.rs:793-809 | The two tables of builtins agree, but for three names that semantic analysis treats elsewhere. |
| SemaClass.Checker.VisitStmt | pplc/src/sema.rs:201-322 | The checker that pushes and pops scopes and counts loops in place accepts exactly the statements of the specification, passes the same statements with the same declarations, and leaves the loop depth as it was. |
| SemaClass.Checker.VisitFunction | pplc/src/sema.rs:179-199 | The same for whole functions, whose parameters and body share a scope. |
| TypingIff.AcceptsExactlyTyped | pplc/src/sema.rs:179-322 | A function of the whole language is accepted exactly if typing rules over one flat map of variables allow it: every use at a type its rule wants, no name twice in a block, loops around jumps, complete switches, results that fit the return type. |
| TypingIff.TypedIff | pplc/src/sema.rs:416-704 | In any scopes, the typing rules give an expression exactly the one type that is found for it, and none exactly when it is refused. |
| Soundness.AcceptedRunsWell | pplc/src/sema.rs:179-322 | An accepted supported function, called with arguments and statics of their types and under any meaning of `continue`, never goes wrong but by arithmetic that has no result (and by a continued round where the meaning forbids it). If it ends, it returns nothing exactly if it is void, else a value of its return type, and leaves statics of their types. |
| WalksAgree.FunctionAgrees | pplc/src/sema.rs:179-322 | Code generation passes every statement of an accepted function with the declarations that semantic analysis had: each visible name is the same declaration in the flat map and on the scope stack. |
| WalksAgree.StaticsIntactIff | pplc/src/codegen.rs:490-492 | The statics are visible to the next function exactly if the outermost scope of this one declares none of their names. |
| WalksAgree.ProgramAgrees | pplc/src/codegen.rs:480-574 | In an accepted program that hides no static, this holds for every statement of every function. |
| Layout.ScalarsHold | pplc/src/codegen.rs:128-139 | The basic sizes are the fewest bytes for the widths of integers, 8 for addresses and floats, and 16 for strings. |
| Layout.BoundHolds | pplc/src/codegen.rs:128-177 | Wherever there is a bound there is a naturally aligned layout, no larger than the bound; for an enum it is exactly the bound. |
| Layout.PayloadFits | pplc/src/codegen.rs:105-119 | Every payload of an enum fits into the 8-byte slots computed for it. |
| Layout.SlotsAreLeast | pplc/src/codegen.rs:105-119 | The slots are the fewest, but at least one, into which the bounds of all payloads fit. |
| Layout.BoundIsClose | pplc/src/codegen.rs:128-177 | A bound is at most eight times the size of the layout. |
| Layout.SizedIffFinite | pplc/src/codegen.rs:124-177 | There is a bound exactly if every name reachable by value is defined, no void and no applied type is held by value, and no type holds itself. |
| LayoutClass.Sizer.Size | pplc/src/codegen.rs:124-177 | The computation with a set of types in progress and running totals returns that bound. |
| LayoutClass.Sizer.DeclareEnums | pplc/src/codegen.rs:80-122 | Each enum gets the number of slots that its largest payload needs. |
| ParserTheorems.TypeReadsNotations | pplc/src/parser.rs:228-307 | On any tokens, a type is read from exactly its notations, function types without arrow included, up to a token that does not go on with it: only a bracket after a word and an arrow after a function without one do. |
| ParserTheorems.TypeReadBack | pplc/src/parser.rs:228-307 | A printed type is read back, before anything but a bracket, and no token more. |
| ParserTheorems.ReadsNotations | pplc/src/parser.rs:507-836 | Before tokens that do not extend it, in and outside headers, an expression is read, up to there, from exactly its notations, with any redundant parentheses. |
| ParserTheorems.AcceptsNotations | pplc/src/parser.rs:507-836 | On any tokens, what is read is a notation of the expression that is returned. |
| ParserTheorems.ExprReadBack | pplc/src/parser.rs:507-836 | A printed expression is read back, and no token more, before any tokens that do not extend it. |
| ParserTheorems.NotationIsUnambiguous | pplc/src/parser.rs:507-836 | No two expressions share a notation, printed or not. |
| ParserTheorems.WritableIffPrintable | pplc/src/parser.rs:507-836 | The expressions that have a notation, and those that the parser can return, are exactly the printable ones. |
| ParserTheorems.HeaderReads | pplc/src/parser.rs:734-791 | Before the body of a `for` or `switch`, what is read is the expression without the bracket it ends in, if that could hold type arguments. |
| ParserTheorems.HeaderReadBack | pplc/src/parser.rs:734-791 | There an expression is read back exactly if it holds no struct literal and does not end in such a bracket. |
| ExprRoundTrip.BinaryTrip | pplc/src/parser.rs:553-570 | A printed operand is read up to the operators around it, in and outside headers. |
| ExprRoundTrip.InertBracket | pplc/src/parser.rs:734-791 | A guess at type arguments after a name goes back unless it ends at the closing bracket and a call, struct literal or body follows. |
| TypeLocality.TypesLocal | pplc/src/parser.rs:214-307 | Whether a bracket reads as a list of types does not depend on what follows it. |
| RoundTrip.ParsedTypesBalanced | pplc/src/parser.rs:214-226 | Every list of types that the parser accepts consumes balanced brackets. |
| ParserClass.RecursiveDescent.ReadType | pplc/src/parser.rs:228-307 | The cursor that moves and goes back reads what the specification reads and stops at the same token. |
| ParserClass.RecursiveDescent.ReadExpr | pplc/src/parser.rs:507-509 | The same for expressions. |
| Climb.ClimbUnique | pplc/src/parser.rs:553-570 | For every chain of operands and operators, one tree with this yield has left children that bind at least as tightly and right children that bind more tightly, and climbing finds it. |
| Climb.ParseIsClimb | pplc/src/parser.rs:553-570 | On any tokens, parsing an expression is reading such a chain and climbing it. |
| LexRoundTrip.LexUndoesWrite | pplc/src/lexer.rs:160-480 | Any list of tokens but floats, each in any notation (integers in decimal or hex of either case with leading zeros, strings with escapes), with blanks and comments between them, is read back with each token where it was written, and then one Eof. |
| LexAccepts.ReadIsSpelled | pplc/src/lexer.rs:200-465 | What is read as a token is one of its notations, or a string that the end of the source cuts off. |
| LexAccepts.SkippedIsGaps | pplc/src/lexer.rs:119-158 | What is skipped is blanks and comments, the last line comment perhaps without its newline, and neither starts after it. |
| LexerClass.Lexer.Advance | pplc/src/lexer.rs:105-117 | The line is always one plus the newlines before the position, and the column one plus the characters since the last of them. |
| LexerClass.Lexer.NextToken | pplc/src/lexer.rs:160-465 | The next token is the specified one, with the line and column of its first character, or the specified problem. |
| LexerClass.TokenizeAll | pplc/src/lexer.rs:468-480 | The whole list of tokens with lines and columns is the specified one. |
| SourceText.ExprFromText | pplc/src/parser.rs:507-836 | Any notation of an expression, written as text with any notations of its tokens and any blanks and comments, is lexed and parsed to that expression. |
| ImportTheorems.VisitsWhatIsReachable | pplc/src/main.rs:124-152 | On any file graph exactly the files that imports lead to are visited, each once; the first file is one of them exactly if it is reachable from itself. |
| ImportTheorems.VisitsFirstRoutes | pplc/src/main.rs:124-152 | Each file is visited along the first route to it, in depth-first order, of those that pass no file twice. |
| ImportTheorems.PutsOutInOrder | pplc/src/main.rs:124-152 | The items put out are those of the first file and of each file at the end of the first route to it, each position once, in depth-first order. |
| ImportTheorems.SucceedsIffLoadable | pplc/src/main.rs:124-152 | The walk ends on every graph and succeeds exactly if every file that the first file and the files reachable from it import can be read. |
| ImportClass.Loader.ResolveImports | pplc/src/main.rs:124-152 | The loop that pushes to the two lists builds the items and files of that walk, or returns its fault. |
| ImportClass.LoadProgram | pplc/src/main.rs:155-170 | The program is what the walk from the first file puts out. |
| LibC.MemMove | ppos/boot/libc.c:14-30 | Under every overlap the destination holds the bytes that the source held before, and nothing else changes. |
| LibC.MemCpy | ppos/boot/libc.c:4-12 | The same for places that do not overlap. |
| Glue.StreamsConserved | ppos/boot/uip_glue.c:49-178 | Since the last connect, under any interleaving: bytes delivered and bytes in the ring are the accepted segments in order, and bytes handed to the stack and bytes pending are the accepted sends in order. |
| Glue.RefusalIsLoud | ppos/boot/uip_glue.c:60-72 | A segment is refused exactly if it does not fit into 16384 bytes; then the ring is left alone, the connection is marked closed and aborted, and the error is kept. |
| Glue.SendAccepted | ppos/boot/uip_glue.c:147-161 | A send is accepted exactly if its bytes are there and fit into 2048 behind those waiting, and then they wait behind them; otherwise the code tells a senseless call from one that can never fit and one that does not fit now. |
| Glue.ReceiveGives | ppos/boot/uip_glue.c:164-178 | A receive gives the oldest bytes, as many as the caller has room for or all there are, and takes them from the ring. |
| Glue.FlagsRemember | ppos/boot/uip_glue.c:49-98 | Over any run within a connection: it is established or timed out exactly if some callback said so, and closed exactly if one reported an abort, a close or a timeout or a segment was refused. |
| Glue.PollsDrain | ppos/boot/uip_glue.c:87-97 | Callbacks take from the send queue exactly as much as the stack allows, in order. |
| Glue.FailedCallsChangeNothing | ppos/boot/uip_glue.c:122-178 | A call that answers with an error changes nothing, but for a connect that finds no free connection. |
| Glue.StaysBounded | ppos/boot/uip_glue.c:49-178 | No run overfills a buffer. |
| Glue.NoRestartWhilePolling | ppos/boot/uip_glue.c:122-128 | While a poll is running a connect is refused and changes nothing. |
| GlueClass.Buffers.Reset | ppos/boot/uip_glue.c:100-119 | Initialisation empties both buffers and clears the flags. |
| GlueClass.RingWrites | ppos/boot/uip_glue.c:73-83 | Writing in two pieces around the end of the buffer appends to the ring, and the full flag is right. |
| GlueClass.RingReads | ppos/boot/uip_glue.c:164-178 | Reading at the tail takes the oldest byte, across the end of the buffer too. |
| GlueClass.Buffers.AppCall | ppos/boot/uip_glue.c:49-98 | The callback takes the ring, the send buffer and the flags to the specified state and hands the specified bytes to the stack. |
| GlueClass.Buffers.Send | ppos/boot/uip_glue.c:147-161 | A send is appended whole or not at all, with the specified code. |
| GlueClass.Buffers.Recv | ppos/boot/uip_glue.c:164-178 | The caller's buffer gets the oldest bytes, as many as fit, and no other byte of it changes. |
| GlueClass.Buffers.Connect | ppos/boot/uip_glue.c:122-142 | Bad input or a poll in progress changes nothing; otherwise both buffers start empty. |

## Left out

- `validate_generic_*`, which only rejects programs before they are rewritten, and the texts of error messages.
- Instances in extern prototypes: `monomorphize` passes prototypes through unchanged.
- The initialisers of statics are no part of MonoPreserve.MeaningPreserved, which runs functions.
- MonoAccepts.SucceedsIff: with tuples as type arguments two instances can share a name (`Names.TuplesCollide`), so that instances are not what the books count; nothing is said of those programs.
- MonoClosed.OutputClosed: speaks of the instances that the rewritten items and generated definitions refer to, not of every reserved name that occurs in the text of the output.
- LLVM, object files, linking, the JIT and the command line. A small machine with blocks, registers and slots stands for LLVM.
- `defer`: the deferred calls are emitted at the first exit in the text, so running them on every exit is not what the code does.
- In lowering: floats, strings, arrays, structs, tuples, pointers and builtins in expressions; loops over arrays; untyped `let`, whose initialiser is compiled twice.
- LowerTheorems.LoweringCorrect: the answers of called functions are a parameter of both sides, and a call changes no static of the caller's module.
- The stack slot for the counter is counted once; the original allocates it in the entry block, which the machine does not distinguish.
- Soundness.AcceptedRunsWell: the supported functions are those with typed `let`, without the constructs above, and without enum values as operands; a payload that is converted or initialised has a value type.
- LowerAccepts.LoweredUnlessNarrowing: the original lets a constant of 64 bits narrow; only `sizeof` and `alignof` give one, and they are builtins.
- LowerClass.Generator.GenerateStmt: after an error the state of the generator is not described.
- SemaClass.Checker.VisitStmt: after an error the scopes and the loop depth are not described.
- `storage_size` counts without a limit; overflow of 64 bits is not modelled.
- Statements and items in the parser, and positions and texts of its errors.
- Letters, digits and blanks beyond ASCII. Values of floats are exact here.
- Imports: a file that can be read has a parent directory; lexing and parsing of a file are one step that succeeds or fails.
- DNS queries over UDP, frames, ARP, timers and retransmission in the glue; the TLS session above it.
