# Verification of AkLisp's data structures, compiler and virtual machine

This project models the core of the AkLisp interpreter in Dafny and proves what it is relied on for.

- **Red-black trees** (`RedBlack*.dfy`, after `src/akl_tree.h`). The intrusive tree is a class with mutable links. Its
  shape is tracked as a tree with a hole, so that a rotation, a recolouring, an attachment or an unlinking is a change
  at one place in an arbitrary context. Insertion, removal with its fix-ups, search, walks and the range scan change the
  links in place. A scan is proved against a function that knows no cursors (`RedBlackScanMeaning.dfy`): its callbacks
  may delete any node and run scans of their own.
- **Splay trees** (`Splay*.dfy`). The top-down splay takes the tree apart into two spines below a dummy node and puts it
  together again; the operations are built on it as in the header.
- **The compiler** (`Compiler.dfy`, `CompilerLoops.dfy`). The compiler goes over the tokens once, emits into the
  function it is in, keeps a NOP waiting at the end of the code and binds labels as it passes them. It is modelled
  twice: as an object whose methods and loops change tokens, globals and functions, and as total functions, which the
  methods are proved to compute. `Grammar.dfy` has the source language and its resolution of names, `Codegen.dfy` what
  code of an expression is, `OnePass.dfy` that the single pass emits it, `Builder.dfy` what holds for any tokens.
- **The machine** (`Machine.dfy`, `StackMachine.dfy`). The meaning of bytecode is a function with a clock, which ticks
  at calls of functions that run code and at jumps that do not go forwards. The machine as it runs is a loop over
  instructions on one shared doubly-linked stack, with the frames of calls as windows on the same entries
  (`LinkedList.dfy`, `StackFrames.dfy`, `ValueStack.dfy`), and with the globals in their tree (`GlobalStore.dfy`). Its
  C functions may set globals, and `map`, `foldl` and `times` call back into it; what those come to is in
  `HigherOrder.dfy`.
- **What joins them** (`Meaning.dfy`, `Simulation.dfy`, `Programs.dfy`, `Interpreter.dfy`). Running the compiled program
  is evaluating its source from left to right, for every program, stack and clock, and so are halting and its result.
  `Discipline.dfy` and `Locality.dfy` say when calls give exactly one value and depend on nothing below them.
- **What it all comes to** (`Laws.dfy`, `Direct.dfy`, `SourceMeaning.dfy`, `Malformed.dfy`). The meaning of the language
  in terms of values alone: one law for each construct, and a meaning without a stack, frames or popping, to which the
  evaluation on the stack, and with it the compiled code on the machine, is proved to come. `Malformed.dfy` is about
  tokens that are no program.
- **Text** (`DataText.dfy`, `TextLoops.dfy`, `Lexing.dfy`). The lexer and the reader, the printer, the round trip, and
  the way from the text of a program to its tokens.
- **Names** (`Interning.dfy`, `GlobalVariables.dfy`, `GlobalStore.dfy`, `Settings.dfy`). Symbols and variables are
  kept in two red-black trees, ordered by comparators that read the names in the symbols. `LowerCase.dfy` shows that the
  names in code are in lower case, so that a name in code and the symbol found for it up to case are the same.

Check everything with `dafny verify dfyconfig.toml`.

Some things the code does and a reader might not expect are kept in the model: the condition of a jump counts as nil
when the whole stack is empty, and `while` leaves the values of every turn on the stack. A string between the parameters
and the body of a function is taken for documentation, and the token after it is lost with it, so no documented function
is compiled from the start of its body (`OnePass.DocumentationTakesAToken`). A `lambda` at the head of a list is not
called (`SourceMeaning.HeadIsNotCalled`). Where the code and a comment differ, the code is modelled: a comment of the
lexer asks that signs work as names and in front of numbers alike. A sign waits over newlines, comments and ignored
characters for what comes next. It is a name exactly if that is a space or a closing bracket (`Lexing.SignAlone`), so a
sign at the end of a line is a name when the next line is indented, and the sign of a number when the next line starts
with its digits (`Lexing.SignsGoAstray`). `Lexing.MayPrecede` says this of a token and the gap behind it, and
`Lexing.SignNeeds` that it is the exact condition.

## Model

| member | source | states |
|---|---|---|
| `KeyOrder.EqualIffSameFold` | src/aklisp.h:636-648 | Two names compare equal exactly when they are the same after case folding. |
| `KeyOrder.EqualIffSameName` | src/aklisp.h:636-648 | Two names compare equal exactly when they have the same length and at every place the same character, or a capital and a small letter at the same place in the alphabet. |
| `KeyOrder.FoldIsLower` | src/lexer.c:185-203 | Folding leaves no capital, changes letters in case alone, and changes exactly the names that have capitals. |
| `KeyOrder.OrderOfNames` | src/aklisp.h:636-648 | Names in small letters are in the order of a dictionary, by the first character in which they differ, and capitals make no difference to the order. |
| `KeyOrder.Antisymmetric` | src/aklisp.h:636-648 | Swapping the arguments of the comparator flips the sign of its result. |
| `KeyOrder.Transitive` | src/aklisp.h:636-648 | If one name compares below or equal to a second and that to a third, one of the two strictly, the first compares strictly below the third. |
| `RedBlackHeap.Head.RotateLeft` | src/akl_tree.h:349-367 | The in-place left rotation at any place in the tree turns the shape x(a, y(b, d)) into y(x(a, b), d) and leaves every other link, the colours and the context as they were. |
| `RedBlackHeap.Head.RotateRight` | src/akl_tree.h:369-387 | The mirror image: y(x(a, b), d) becomes x(a, y(b, d)). |
| `RedBlackInsert.InsertColor` | src/akl_tree.h:440-483 | Started at a freshly attached red node, the fix-up ends with a red-black tree that has the same nodes in the same order. |
| `RedBlackInsert.Insert` | src/akl_tree.h:639-668 | With any comparator that orders the nodes by their keys: a new key adds exactly the node, in its place in key order, and leaves a valid tree; a key that is there already gives back its node, with no node, link or colour changed. |
| `RedBlackSearch.Find` | src/akl_tree.h:670-686 | With any comparator, even one that reads the records, that orders the nodes by their keys: the node found is in the tree and has the key; if none is returned, no node of the tree has it. |
| `RedBlackRemoveColor.RemoveColor` | src/akl_tree.h:485-562 | Started where one black node is missing, the fix-up ends with equal black heights, no red node under a red one and a black root, with the same nodes in the same order. |
| `RedBlackRemove.Splice` | src/akl_tree.h:621-632 | A node with at most one child leaves the tree in place: its child takes its position and nothing else changes. |
| `RedBlackRemove.Replace` | src/akl_tree.h:601-612 | The successor, already taken out of the tree, takes over place, links and colour of the node with two children. |
| `RedBlackRemove.AdvanceScans` | src/akl_tree.h:564-573 | Before a node is removed, every scan in progress that was to visit it next will visit its successor instead; the other cursors stay. |
| `RedBlackRemove.Remove` | src/akl_tree.h:564-637 | Exactly the node is gone from the key order, the tree is valid again, the list of scans in progress is kept, every cursor on the node has moved to its successor, and the node itself is returned. |
| `RedBlackBounds.HeightByBlackHeight` | src/akl_tree.h:48-57 | The height of a shape without a red node under a red one is at most twice its black height, plus one for a red root. |
| `RedBlackBounds.HeightBound` | src/akl_tree.h:48-57 | Two to the height is at most the square of the number of nodes plus one, for every red-black shape: the bound of the header comment. |
| `RedBlackWalk.Next` | src/akl_tree.h:769-789 | From any node, the next one in key order, or none exactly at the last. |
| `RedBlackWalk.Prev` | src/akl_tree.h:791-811 | From any node, the one before it in key order, or none exactly at the first. |
| `RedBlackWalk.NextPrevInverse` | src/akl_tree.h:769-811 | y comes next after x exactly when x comes before y. |
| `RedBlackWalk.Min` | src/akl_tree.h:813-826 | The first node in key order, none for the empty tree. |
| `RedBlackWalk.Max` | src/akl_tree.h:813-826 | The last node in key order, none for the empty tree. |
| `RedBlackWalk.ForEach` | src/akl_tree.h:961-964 | Going from the first node by successors visits every node once, in key order. |
| `RedBlackScan.FirstMatch` | src/akl_tree.h:733-750 | The descent before the callbacks stops at the least matching node, or at none exactly when no node matches. |
| `RedBlackScan.ScanDone` | src/akl_tree.h:706-716 | The walk along the list of scans in progress finds the scan wherever it is and takes out exactly that one. |
| `RedBlackScan.DeleteKey` | src/akl_tree.h:564-637 | A callback's deletion by name takes exactly the node with the name, if there is one, and moves the cursors of all scans on to what is left of the tree. |
| `RedBlackScan.RunVisit` | src/akl_tree.h:755-762 | After a callback with any deletions and scans of its own the tree has exactly the nodes that its plan leaves. |
| `RedBlackScan.CursorIsFirst` | src/akl_tree.h:755-762 | Whatever the callback deleted, the cursor that stood at the successor of the visited node stands at the first node left beyond it. |
| `RedBlackScan.Scan` | src/akl_tree.h:688-767 | The nodes called back on, the result and the contents of the tree in the end are those of ScanOf, whatever the callbacks delete and whichever scans they run; the scans around it are in progress as before, each cursor at the first node that is left at or after where it stood. |
| `RedBlackScanMeaning.WithoutKeyIsFilter` | src/akl_tree.h:564-637 | A deletion by key leaves exactly the nodes with another key. |
| `RedBlackScanMeaning.ScanStep` | src/akl_tree.h:755-765 | One round of a scan: a negative result ends it at once, otherwise it goes on with the first node beyond the visited one in what the callback left, as long as that matches. |
| `RedBlackScanMeaning.ScanKeepsTo` | src/akl_tree.h:688-694 | Every scan calls back in strictly ascending order, on nodes that match and are in the tree at that moment; each callback starts from what the one before it has left; the result is the sum of the results, or the negative one that ended the scan. |
| `RedBlackScanMeaning.GoneForGood` | src/akl_tree.h:688-694 | A node that a callback has deleted is in the tree at no later callback. |
| `RedBlackScanMeaning.NeverOnDeleted` | src/akl_tree.h:688-694 | No callback gets a node that an earlier callback has deleted. |
| `RedBlackScanMeaning.NothingMissed` | src/akl_tree.h:688-694 | Every matching node is called back on, unless a callback on a smaller node deleted it or a negative result ended the scan before it. |
| `SplayTree.Head.LinkRight` | src/akl_tree.h:101-105 | The root with its left subtree becomes the end of the spine of smaller nodes, and its right subtree is what is left to search; all other links stay. |
| `SplayTree.Head.Splay` | src/akl_tree.h:204-237 | Splaying keeps the order of all nodes, and afterwards the root has the key or is next to where it would be: everything on its left is below the key, everything on its right above. |
| `SplayTree.Head.SplayMinMax` | src/akl_tree.h:242-273 | Splaying to an end keeps the order of all nodes and leaves a root with nothing before (after) it. |
| `SplayTree.Head.Assemble` | src/akl_tree.h:107-112 | The two spines, with the subtrees of the root in their holes, become its subtrees: a valid tree of all the nodes again. |
| `SplaySets.Find` | src/akl_tree.h:123-132 | The node with the key comes to the root and is returned; none exactly when no node has it; the order of nodes is kept. |
| `SplaySets.Insert` | src/akl_tree.h:159-181 | Any node may be passed: a new key adds exactly the node in its place, a key that is there gives back its node and keeps the nodes and their order. |
| `SplaySets.Remove` | src/akl_tree.h:183-202 | Exactly the node with the key goes and the argument is returned; without such a node all nodes stay in their order and none is returned. |
| `SplaySets.Next` | src/akl_tree.h:134-146 | The node that follows in key order, or none exactly after the last. |
| `SplaySets.MinMax` | src/akl_tree.h:148-153 | On a tree that is not empty: the first or the last node in key order, with the order kept. |
| `LinkedList.List.Append` | src/list.c:25-43 | The chain has one entry more at its end, every other entry is the same object in the same place. |
| `LinkedList.List.InsertHead` | src/list.c:53-69 | The chain has one entry more at its head. |
| `LinkedList.List.IndexEntry` | src/list.c:191-214 | The entry at an index from the list's first entry on, or from its end back for a negative one; none past the ends of the chain. |
| `LinkedList.List.Remove` | src/list.c:242-266 | Exactly the entry leaves the chain, from the middle or from an end, and all links around it are repaired. |
| `LinkedList.List.Pop` | src/list.c:295-310 | The last entry leaves the chain and is returned; none exactly when the list is empty. |
| `LinkedList.List.Shift` | src/list.c:87-103 | The first entry leaves the chain and is returned; on an empty list there is none, and its count goes to minus one. |
| `LinkedList.List.Cdr` | src/list.c:318-334 | A new list object over the very same entries without the first one; none exactly for the empty list. |
| `StackFrames.InitFrame` | src/types.c:128-146 | The frame of a call is the last argc entries of the shared stack, the very same objects; also what it claims to be when there are no arguments or too few entries. |
| `StackFrames.Context.Shift` | src/aklisp.c:97-106 | The first argument leaves the frame and, in the same step, the middle of the shared stack, which is repaired around it. |
| `StackFrames.Context.Pop` | src/aklisp.c:115-124 | The last argument leaves the frame and the stack, whatever lies above it. |
| `StackFrames.Context.Destroy` | src/aklisp.c:77-81 | Exactly what is left of the frame leaves the stack; what lies below and above it stays, in order. |
| `Bytecode.BuildAppends` | src/compile.c:63-103 | With the waiting NOP at the end of the code, building an instruction puts it where the NOP was and appends a new one. |
| `Machine.Exec` | src/aklisp.c:482-642 | A run that ends keeps every value below the floor of its frame and gives no tick back. |
| `Machine.Destination` | src/aklisp.c:588-616 | The target of a jump that is bound is an instruction of a user function, or the end of its code. |
| `Machine.Invoke` | src/aklisp.c:389-428 | A call that ends keeps every value below its floor. |
| `Machine.Iterate` | src/lib.c:715-822 | So does a call of `map`, `foldl` or `times`, with all the calls it makes. |
| `Meaning.Eval` | src/aklisp.c:482-642 | Evaluation from left to right keeps every value below the floor. |
| `Laws.IfTakes` | src/aklisp.c:606-616 | When the condition of `if` leaves a value on top, what follows is the second branch if that value is nil and the first otherwise, on the stack without it. |
| `Laws.WhenTakes` | src/lib_spec.c:29-38 | When the condition of `when` leaves nil on top, nothing is pushed; any other value makes it go on with the body. |
| `Laws.WhileTakes` | src/lib_spec.c:83-99 | When the condition of `while` leaves nil on top, the loop ends with it taken off; any other value makes it go on with the body and, within the clock, with the loop again. |
| `Laws.NothingIsNil` | src/aklisp.c:606-616 | A condition that leaves the whole stack empty counts as nil in all three. |
| `Laws.SetStores` | src/aklisp.c:511-519 | `set` stores the value that its argument leaves on top under the name, and leaves it on the stack. |
| `Laws.ReadsWhatWasSet` | src/aklisp.c:521-532 | A global read after that has the value stored, any other name the value it had, and a name without a value is nil. |
| `Laws.CFunctionLeaves` | src/aklisp.c:389-428 | A call of a C function, with anything below its arguments, leaves what the function returns for them in their place, or nothing for NULL, and takes no tick. |
| `Laws.CFunctionSets` | src/util.c:28-56 | After the call a name has the value that the C function set last under it, up to case. |
| `Laws.CFunctionSparesOthers` | src/util.c:28-56 | A name under which the C function set nothing is as it was. |
| `Laws.UserFunctionLeaves` | src/aklisp.c:389-428 | When the body of a user function ends with its arguments and some values above them, the call leaves exactly these values in place of the arguments. |
| `Laws.ParameterIsArgument` | src/aklisp.c:545-552 | In a call, a parameter pushes the argument at its position, whatever lies below and above the arguments. |
| `Laws.FormLeavesNothing` | src/aklisp.c:389-428 | A special form that is called at run time takes its arguments off and leaves nothing. |
| `Laws.LateCall` | src/aklisp.c:429-472 | A call by name calls the function that the global of that name holds at that moment; if it holds none, stack and globals stay as they are. |
| `Laws.NullEndsTheRun` | src/aklisp.c:534-542 | A NULL operand ends the run with the state as it is. |
| `Laws.TypesOfValues` | src/aklisp.c:238-345 | A value has the wanted type exactly when it is a number, string, symbol, list or function. |
| `Direct.EvalAgrees` | src/aklisp.c:482-642 | Evaluation on the stack, whatever lies on it, leaves exactly the list of values, the globals and the ticks that a meaning without stack, frames and popping gives the expression; and it runs out of time exactly when that does. |
| `Direct.FunctionAgrees` | src/aklisp.c:389-428 | The same for applying a function to arguments: what it makes of them is left in their place. |
| `Direct.IterationAgrees` | src/lib.c:715-822 | The same for `map`, `foldl` and `times`: recursion over the elements or from zero up to the number, one call after the other. |
| `SourceMeaning.NameIsWorth` | src/compile.c:119-131 | As an argument, a name is worth the argument in the place of the first parameter of that name, and otherwise the global, or nil. |
| `SourceMeaning.LambdaIsWorth` | src/lib_spec.c:190-215 | A `lambda` as an argument is worth a new function with its parameters, whose body is resolved with these and with what is known around it. |
| `SourceMeaning.DefunIsWorth` | src/lib_spec.c:136-188 | A definition is worth its name as a symbol, and its body and all that follows know the name as the new function. |
| `SourceMeaning.IfIsWorth` | src/lib_spec.c:60-81 | `if` whose condition is worth one value is worth its second branch when that is nil, and its first otherwise. |
| `SourceMeaning.CallIsWorth` | src/compile.c:234-345 | A call of a known function is worth what the function makes of the values of its arguments. |
| `SourceMeaning.HeadIsNotCalled` | src/compile.c:234-345 | A `lambda` at the head of a list is not called: the list is worth its arguments. |
| `SourceMeaning.DisciplinedIsClear` | src/aklisp.c:482-642 | A disciplined expression is worth exactly one value, or runs out of time; what it is worth is never up to what surrounds it. |
| `SourceMeaning.CompiledIsWorth` | src/aklisp.c:823-834 | Running a compiled program, on any stack and clock, leaves on top of it exactly the values that its source is worth. |
| `Codegen.CodedMoves` | src/compile.c:98-170 | Only the code and the labels of its own range make code the code of an expression: whatever is appended or bound elsewhere does not matter. |
| `Codegen.CodedDetermines` | src/compile.c:98-170 | The layout leaves no freedom: two bodies that hold code of the same expression at the same place agree on every instruction and label there. |
| `Simulation.FrameIsStable` | src/aklisp.c:54-57 | As long as nothing below the floor changes, the frame holds the same arguments. |
| `Simulation.Simulates` | src/aklisp.c:482-642 | Running the code of an expression from its first instruction is evaluating the expression and running on behind it, for every frame, stack, clock and outcome: ends, time-outs and getting stuck agree. |
| `Simulation.CallsAgree` | src/aklisp.c:389-428 | A call of a function on the machine is the application of its definition. |
| `Simulation.IterationsAgree` | src/lib.c:715-822 | The calls that `map`, `foldl` and `times` make on the machine come to what applying the definition of the function comes to, with the same outcome. |
| `Runs.ClockIsOnlyPatience` | src/aklisp.c:482-642 | A run that does not time out has the same outcome with more ticks, and as many more left. |
| `Runs.FinalNopIsUnused` | src/compile.c:374-401 | Taking the last NOP off a function changes no run of any function, even when jumps target it. |
| `Discipline.PushesOne` | src/aklisp.c:389-428 | A disciplined expression either runs on for ever or pushes exactly one value and leaves everything below as it was; it never gets stuck. |
| `Discipline.PushesEach` | src/compile.c:234-345 | Arguments are pushed one by one in source order, one value each. |
| `Discipline.CallPushesOne` | src/aklisp.c:389-428 | In place of its arguments a disciplined call leaves one value. |
| `Locality.Local` | src/aklisp.c:482-642 | What a disciplined expression pushes, the globals it leaves and the ticks it takes do not depend on what lies below on the stack. |
| `Locality.CallIsLocal` | src/aklisp.c:389-428 | Calls with the same arguments on top and the same globals have the same effect at any height of the stack. |
| `Locality.ResultIsOne` | src/aklisp.c:389-428 | However deep on the stack and however many ticks there are: a call of a disciplined function that ends always gives the same value and the same globals for the same arguments and globals. |
| `Reader.ReadsDatum` | src/parser.c:32-121 | Reading the tokens that spell a datum gives its value and takes exactly these tokens. |
| `CompilerLoops.Compilation.ParseList` | src/parser.c:105-121 | The loop that appends values until there is none comes to the items of the recursive reader, and stops where it stops. |
| `CompilerLoops.Compilation.Emit` | src/compile.c:63-117 | The function being compiled gets the instruction in place of the waiting NOP and a new NOP, and nothing else changes. |
| `CompilerLoops.Compilation.FindArgument` | src/compile.c:43-49 | The first position of the name among the parameters, none exactly when it is no parameter. |
| `CompilerLoops.Compilation.NewLabels` | src/types.c:389-410 | Exactly n unbound labels are appended to the function, and the number of the first is returned. |
| `CompilerLoops.Compilation.BindLabel` | src/compile.c:153-163 | The label is bound to the position of the waiting NOP; no other label changes. |
| `CompilerLoops.Compilation.PrefetchFunction` | src/compile.c:196-231 | What a name at the head of a list stands for while compiling: special form, function, no function, or unknown. |
| `CompilerLoops.Compilation.CompileList` | src/compile.c:234-345 | The loop with its flags and counters leaves the compilation, the function it may return and the remaining tokens as the recursive compiler does. |
| `CompilerLoops.Compilation.CompileNext` | src/compile.c:347-372 | One operand compiled in place, for every token it may start with. |
| `CompilerLoops.Compilation.CompileDefun` | src/lib_spec.c:136-188 | A new function with parameters and body, its global bound before the body is compiled, the name pushed; also for names missing and lists broken off. |
| `CompilerLoops.Compilation.CompileLambda` | src/lib_spec.c:190-215 | A new function with parameters and body, which the list is then worth. |
| `CompilerLoops.Compilation.Compile` | src/compile.c:374-401 | Compiling token after token up to the end and dropping the last NOP gives the functions, globals and fault flag of the recursive compiler. |
| `Builder.EmitGrows` | src/compile.c:98-117 | Building an instruction only appends to the function being compiled. |
| `Builder.BindGrows` | src/compile.c:153-163 | A binding touches only a label that was waiting for it. |
| `Builder.ListGrows` | src/compile.c:234-345 | Compiling any list, well formed or not, keeps all code and labels there are, appends to the function being compiled alone, leaves no label unbound, and keeps every jump in its own function. |
| `Builder.FunctionGrows` | src/lib_spec.c:136-215 | The same around the definition of an inner function, which is finished when it is left. |
| `Malformed.ParamsAreNames` | src/lib_spec.c:101-134 | Whatever tokens stand between the brackets of a parameter list, the parameters are the names among them, in order. |
| `Malformed.ParamsFault` | src/lib_spec.c:101-134 | Reading parameters goes wrong exactly when a bracket opens and none closes; anything but a bracket is one lost token. |
| `Malformed.SetWithoutName` | src/lib_spec.c:40-58 | `set!` without a name takes one token and compiles nothing. |
| `Malformed.DefunWithoutName` | src/lib_spec.c:136-188 | `defun!` without a name takes one token and makes an empty function that nothing refers to. |
| `Malformed.ListBrokenOff` | src/compile.c:234-345 | A list that the text breaks off compiles to no call. |
| `Malformed.BracketAsOperand` | src/compile.c:347-372 | A closing bracket in place of an operand compiles to a NULL operand. |
| `OnePass.NextEmits` | src/compile.c:347-372 | From the tokens of any well-formed operand the single pass emits the code of its resolved expression, takes exactly its tokens, and makes the functions and bindings that resolving it does. |
| `OnePass.ListEmits` | src/compile.c:234-345 | The same for a list: a call, a special form or nothing. |
| `OnePass.IfEmits` | src/lib_spec.c:60-81 | `if` compiles to the condition, a jump over the first branch, and a jump behind the second, with both labels bound where the branches meet. |
| `OnePass.WhenEmits` | src/lib_spec.c:29-38 | `when` compiles to the condition and a jump over the body. |
| `OnePass.WhileEmits` | src/lib_spec.c:83-99 | `while` compiles to the condition, a jump behind the loop, the body and a jump back. |
| `OnePass.SetEmits` | src/lib_spec.c:40-58 | `set` compiles to its argument and an assignment to the name. |
| `OnePass.DefunEmits` | src/lib_spec.c:136-188 | `defun` makes the function its parameters and body denote, visible to its own body and to everything after it. |
| `OnePass.LambdaEmits` | src/lib_spec.c:190-215 | `lambda` makes the function its parameters and body denote. |
| `OnePass.InvokeEmits` | src/compile.c:234-345 | A call compiles to its arguments in source order and one call instruction with their number, resolved early when the head is a function already and by name otherwise. |
| `OnePass.AppliedEmits` | src/compile.c:234-345 | A list whose head is data or a list compiles to head and arguments, and to nil behind them unless the head made a function, which the list is then worth; nothing is called. |
| `OnePass.SkipsDocumentation` | src/lib_spec.c:161-172 | A string between parameters and body is taken away together with the one token after it; a body that is no string stays. |
| `OnePass.DocumentationTakesAToken` | src/lib_spec.c:161-172 | So no documented function, whatever its body, is compiled from the first token of the body on. |
| `Programs.ProgramCompiles` | src/compile.c:374-401 | For every well-formed program the compiler ends without a fault, and every function in its table is the code of a definition of the source. |
| `Programs.ProgramMeansItsSource` | src/aklisp.c:823-834 | For every well-formed program, library, clock and starting stack: running the compiled main function is evaluating the source from left to right, with the same outcome. |
| `Programs.HaltsWithItsSource` | src/aklisp.c:823-834 | The machine halts with a stack and globals exactly when the evaluation of the source does. |
| `Programs.OneResult` | src/aklisp.c:823-834 | A run that halts has one result only, whatever the number of ticks. |
| `Programs.DisciplinedProgramRuns` | src/aklisp.c:823-834 | A compiled program of n disciplined expressions never gets stuck and, if it ends, leaves exactly n values. |
| `Programs.JumpsStayHome` | src/compile.c:374-401 | For any tokens whatever: in every function all labels are bound and all jumps go to positions of the function's own code. |
| `Programs.DroppingChangesNoRun` | src/compile.c:392-399 | For any tokens whatever: taking the last NOP off the main program changes no run. |
| `StackMachine.Vm.PopIsNil` | src/aklisp.c:606-616 | True exactly when the top of the stack is nil or the stack is empty; exactly the top entry is gone. |
| `ValueStack.Stack.TakeOne` | src/aklisp.c:97-124 | One argument taken from either end leaves the frame and the stack; none exactly when there is none left. |
| `ValueStack.Stack.GetArgs` | src/aklisp.c:238-345 | Succeeds exactly when there are as many arguments as wanted, each of its type, and then gives them in order with the frame used up. |
| `ValueStack.Stack.PushAndDestroy` | src/aklisp.c:402-428 | The result lies on top and what was left of the frame is gone from under it, with everything below the same objects. |
| `StackMachine.Vm.SetGlobal` | src/aklisp.c:511-519 | The global of that name has the value on top of the stack and no other changes; the stack stays, entry by entry; on an empty stack nothing happens. |
| `StackMachine.Vm.CallBuiltinBound` | src/aklisp.c:389-428 | However many of its arguments a C function took, and from which end: in place of them lies the value it returns, or nothing for NULL, the globals have what it set, and every entry below is the same object as before. |
| `StackMachine.Vm.CallIteration` | src/lib.c:715-822 | A call of `map`, `foldl` or `times` on the shared linked stack comes to what Machine.Iterate says: nil for wrong arguments, else the result of its calls in place of the arguments. |
| `StackMachine.Vm.Map` | src/lib.c:715-737 | The loop that pushes an element, calls and pops makes the calls of Machine.Loop, and leaves the entries below the same objects. |
| `StackMachine.Vm.Foldl` | src/lib.c:765-785 | The same for the loop of `foldl`, which pushes the result so far and the next element. |
| `StackMachine.Vm.Times` | src/lib.c:787-812 | The same for the loop of `times`, for any number: none for a negative one. |
| `StackMachine.Vm.Invoke` | src/aklisp.c:389-428 | A call on the shared linked stack comes to what Machine.Invoke says, and leaves the entries below its floor the same objects. |
| `StackMachine.Vm.Run` | src/aklisp.c:482-642 | The loop over instructions on the shared linked stack, with the globals in their tree, comes to what Machine.Exec says: the same end, the same values, globals and ticks; the entries below the frame's floor stay the same objects, and the frame stays a window on them. |
| `LowerCase.NoCapitalsInTokens` | src/lexer.c:185-203 | Whatever the text, no name among its tokens has a capital letter. |
| `LowerCase.CompiledLow` | src/compile.c:374-401 | A program whose names are in lower case compiles to code and globals whose names are; so in code a name and its symbol, found up to case, are one. |
| `Interpreter.Interpret` | src/aklisp.c:836-842 | Compiling the tokens of a well-formed program in one pass and running its main function on an empty linked stack, with the globals in their tree, ends within the clock exactly when evaluating the source does, with the values and globals of that evaluation, which are those that the source is worth; calls of `map`, `foldl` and `times` are among what it may do. |
| `Interpreter.InterpretText` | src/aklisp.c:836-842 | The same from the text of the program, with any spaces, newlines and comments between its tokens, and after a first line for the shell. |
| `Interning.SymbolTable.Get` | src/types.c:188-195 | The symbol of a name up to case, none exactly when there is none. |
| `Interning.SymbolTable.GetOrCreate` | src/types.c:157-173 | A known name gives its symbol and changes nothing; a new one puts exactly one symbol into the table, found by comparing with the names in the symbols, and the name of the new one is then missing. |
| `Interning.SymbolTable.HasName` | src/types.c:157-186 | Every symbol of the table has a name, equal up to case to the one it is found under. |
| `Interning.SymbolTable.NewSymbol` | src/types.c:175-186 | The table is whole again, every symbol under its own name; only a new symbol gets name and flag. |
| `Interning.SymbolTable.GetOrCreateSymbol` | src/types.c:198-207 | The same with a copy of the name. |
| `Interning.InternAll` | src/types.c:157-207 | Over any sequence of requests two names get the same symbol exactly when they have the same letters up to case, and no earlier entry changes. |
| `GlobalVariables.Globals.Get` | src/util.c:118-124 | The value last set under the symbol's name, none exactly when there was none. |
| `GlobalVariables.Globals.Set` | src/util.c:28-56 | The value under the name is the new one and every other variable is as it was; an existing variable keeps its identity, a new one is for the symbol; it gets value, description and flag. |
| `GlobalStore.Store.Get` | src/util.c:118-146 | The value under a name up to case, by way of its symbol; nil exactly when it has none. |
| `GlobalStore.Store.Set` | src/util.c:28-72 | Through symbol and variable tree: the name, up to case, has the new value, every other name keeps its own, and the two trees stay valid and in step. |
| `GlobalStore.Store.SetAll` | src/util.c:49-72 | Any sequence of settings comes to the settings one after the other. |
| `Settings.LastOneCounts` | src/util.c:28-56 | A lookup gives the value of the last setting under a name that has the same letters up to case. |
| `Settings.OthersUntouched` | src/util.c:28-56 | Settings under other names do not change it. |
| `DataText.ReadsWhatIsPrinted` | src/list.c:356-457 | Wherever the text of a printable value stands and something ends it, reading there gives the value, names in lower case, and takes exactly its text. |
| `DataText.RoundTrip` | src/list.c:356-457 | The printed text of a value, read from its start, gives the value back and is used up. |
| `DataText.LexesWord` | src/lexer.c:185-203 | A word, which may start with `#` within a line, comes out as an atom in lower case, or as NIL or T whatever its case, and is taken up to what ends it. |
| `DataText.LexesString` | src/lexer.c:158-183 | A string written in pieces - characters, quotes behind a backslash, a backslash and another character - comes out as what they stand for: the character, the quote alone, or both characters. |
| `DataText.PrintsJoined` | src/list.c:430-457 | A list is printed in brackets, with the texts of its values in order and one space between two of them. |
| `DataText.NumberCharacters` | src/lexer.c:119-135 | The characters that a number may have, one by one. |
| `DataText.Punctuation` | src/lexer.c:233-336 | The characters that are neither letter nor digit, one by one, and those that end a word. |
| `TextLoops.Source.Lex` | src/lexer.c:233-336 | The loop with its waiting sign returns the token of the recursive lexer and leaves device and buffer as it does, at the first line's # and in comments too. |
| `TextLoops.Source.ParseValue` | src/parser.c:91-102 | Reading a value from the device comes to what the recursive reader says. |
| `TextLoops.Source.ParseList` | src/parser.c:105-121 | The loop that appends values until there is none comes to the items of the recursive reader. |
| `TextLoops.PrintList` | src/list.c:430-457 | The printing loop writes the text of the list behind what is written already. |
| `TextLoops.Source.Tokens` | src/lexer.c:233-336 | Lexing to the end of the text gives all its tokens with their words. |
| `Lexing.ReadsAlike` | src/parser.c:32-121 | Reading a value from a text and from the tokens of the text comes to the same value, or to no value, or to the same fault, and stops at the same place. |
| `Lexing.LexesBack` | src/lexer.c:233-336 | A text that spells words, signs, numbers, strings with escapes, brackets and quotes, the empty list and the empty string among them, with any spaces, newlines and comments between them that MayPrecede allows, lexes to exactly these tokens. |
| `Lexing.TextLexesBack` | src/lexer.c:233-336 | The same for a whole text, which may start with a line for the shell and a gap. |
| `Lexing.HashLineIsSkipped` | src/lexer.c:255-262 | A line that starts with `#` is read over to its newline, wherever it is. |
| `Lexing.SignAlone` | src/lexer.c:266-296 | For every text: a sign comes out as the atom of its name if and only if a space or a closing bracket stands where its wait over newlines, comments and ignored characters ends; or if a word starts there behind a newline and the buffer held that sign before. |
| `Lexing.SignElsewhere` | src/lexer.c:266-296 | For every text: the sign joins a number if and only if its wait ends at a digit, is lost if and only if it ends with the text, and counts double before the other sign. |
| `Lexing.SignNeeds` | src/lexer.c:266-296 | For every gap and what follows it, MayPrecede is exactly the condition for a sign to come out as an atom. |
| `Lexing.SignsGoAstray` | src/lexer.c:266-296 | Where it goes wrong: a sign at the end of a line joins the number at the start of the next, is lost at the end of the text, and counts double before the other sign. |
| `HigherOrder.DisciplinedHasMeaning` | src/lib.c:715-812 | Every function that keeps the stack discipline gives one result per arguments and globals, for all globals in which late-bound names are bound to functions that fit, and leaves such globals. |
| `HigherOrder.MapIsPointwise` | src/lib.c:715-737 | For a function without effects on the globals the results of `map` are the images of the elements, in order. |
| `HigherOrder.EachOfAppend` | src/lib.c:715-737 | The calls for two lists one after the other are the calls for the first and then, on the globals they leave, those for the second. |
| `HigherOrder.FoldOfAppend` | src/lib.c:765-785 | Folding two lists one after the other is folding the second from the result of the first. |
| `HigherOrder.LoopMeans` | src/lib.c:715-812 | For a function with one result per arguments and globals, the loop of calls on the machine gives what calling it in order gives, leaves the stack as it was, and never gets stuck. |
| `HigherOrder.CallMeans` | src/lib.c:715-822 | A call on the machine that returns has that result in place of its arguments, nil for arguments of the wrong number or type, and nothing below them changed. |
| `HigherOrder.MapMeans` | src/lib.c:715-737 | A call of `map` on the machine, at any height of the stack, gives the list of the results in order, with the effects on the globals one after the other. |
| `HigherOrder.FoldMeans` | src/lib.c:765-785 | A call of `foldl` gives the left fold from its first argument. |
| `HigherOrder.TimesMeans` | src/lib.c:787-812 | A call of `times` gives the list of as many results as the number says, from the indices when they are wanted, and the empty list for a negative number. |

## Left out

- RedBlackScan.Scan: a callback is a plan of deletions by key and of further scans, and a result; callbacks that insert nodes, and scan functions that look at more than the key, are not modelled.
- SplaySets.Insert: keys are integers and a key order of the instantiating code is not modelled, since the repository instantiates no splay tree.
- Machine.Exec: a run that takes a condition from below its own part of the stack, or reads an argument that was not passed, is the outcome Stuck; the source goes on with entries of the calls around it. Discipline.PushesOne says which code never does.
- Machine.Destination: a jump to a label that is not bound, or to no instruction, is the outcome Stuck, where the source leaves the function; by Programs.JumpsStayHome no compiled code has such a jump.
- Machine.Invoke: a call with fewer values on its part of the stack than it has arguments is the outcome Stuck; StackFrames.InitFrame says what the frame of the source claims then.
- StackMachine.Vm.Run: the instructions BRANCH, RET, HEAD, TAIL and JT are not modelled, as the compiler does not emit them for the forms of the source language, and of a run that Machine.Exec calls Stuck nothing is promised.
- StackMachine.Vm.CallBuiltinBound: C functions other than `map`, `foldl` and `times` are functions of their arguments and the globals, which may take their arguments off the frame in any order and set globals, and do not call back into the machine; `map-index`, which calls its function with one argument too few, is left out.
- ValueStack.Stack.GetArgs: user data, the optional arguments and the rest of the arguments, which the source has not finished, and the booleans that NIL and TRUE stand for are not among the types.
- Discipline.Fits: `map`, `foldl` and `times` are not among the functions that a disciplined program calls, since what they call is known at run time only; HigherOrder.CallMeans is about them.
- Interpreter.Interpret: the tokens of a program are read before it is compiled; runs are watched for a number of clock ticks, which bound nothing in the source; and of programs that get Stuck nothing is promised.
- Grammar.WellFormed: a list that starts with a quoted name, which the compiler takes for a call, and forms with too few operands are covered by what holds for any tokens, but not by the theorem on programs; of other malformed forms Malformed says what they come to.
- CompilerLoops.Compilation.SkipDocumentation: the text of a documentation string is not kept in the global variable.
- CompilerLoops.Compilation.ParseNames: a parameter list that the text breaks off, and the places where the source follows a NULL pointer, are the outcome `fault`, after which nothing is promised.
- Reader.ParseToken: values carry no quote flag in the compiler's model; DataText has it.
- DataText.RoundTrip: numbers are not printed and read back, since their characters go through floating point; strings with a quote, or with a backslash at the end or before a quote, and names like NIL or T do not come back, and lists come back quoted.
- DataText.Lex: a device is a string in memory and reading past its end is the end again; files, the token that can be pushed back and the line and column counts are left out.
- Lexing.LexesBack: what a number is worth is a parameter, and words that start with `#` are not part of the statement.
- GlobalVariables.Globals.Set: freeing the description that a variable had before is left out, as all freeing is.
- Garbage collection, memory pools and reference counts.
- Error records and messages, assertions, interactive input and output, colours, modules and operating system calls.
- The tree header's lookups by an index field or a range, which no code of the repository uses, and its augmentation hook, which is empty.
- The assembler syntax, its parser and the textual dump of bytecode.
- The remaining list functions of `src/list.c` and the vector type, which would only add easy members.
