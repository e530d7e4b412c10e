# lsh, a minimal Unix shell, modelled in Dafny

This project models `app.c` of a small interactive shell (lsh). The shell
prints a prompt, reads a line, splits it into an argument vector, and runs
either a builtin (`cd`, `mkdir`, `touch`, `help`, `exit`) or an external
program. It repeats until a command returns status 0.

The model is split into modules that follow the C functions:

- `Alloc` (alloc.dfy): `realloc` on a growable array.
- `LineReader` (line_reader.dfy): `lsh_read_line`.
  - Standard input is the string of characters not yet read.
  - End of input (`EOF`) is the empty string.
  - The method keeps the C loop and its buffer of 1024 characters, which grows by 1024.
  - The method is proved against `LineOf` and `RestOf`.
  - `Lines` is the sequence of successive reads.
- `QuotedSpan` (quoted_span.dfy): `findBetweenQoute`.
  - `strstr` with a one-character needle is `FindChar`.
  - The NULL result is `None`.
- `Tokenizer` (tokenizer.dfy): `strtok` over `" \t\r\n\a"` and `lsh_split_line`.
  - `Tokens` is the reference definition: the maximal runs of non-delimiters, in order.
  - Lemmas show that `Tokens` is the unique split of a line into delimiter runs and words.
  - `Strtok` is one call of `strtok`, as a method with loops.
  - `SplitLine` keeps the C loop, the token array of 64 slots that grows by 64, and the NULL terminator. It is proved against `Split`.
  - `Split` is `Tokens` with the quoted-span override of index 1.
- `Builtins` (builtins.dfy): the builtin tables, `lsh_num_builtins`, the five builtins, `lsh_launch` and `lsh_execute`.
  - The operating system is abstract. The one system call that can fail in a builtin succeeds when the parameter `ok` is true.
  - What a command does is recorded as a list of `Effect`s: output, error messages, and the system calls it requests.
  - `help` and `lsh_execute` keep their loops (`Help`, `Execute`).
- `ShellLoop` (shell_loop.dfy): `lsh_loop`.
  - `Session` is the reference definition of a run over a finite input. `os(k)` is the system-call result in iteration `k`.
  - `Loop` is the do-while loop, proved equal to `Session`.
  - The lemmas say which lines run, which effects they have, and when the loop stops.

## Model

| member | source | states |
|---|---|---|
| Alloc.Realloc | app.c:51-60 | The new array has the requested size and keeps every old element at its index. |
| LineReader.LineOf | app.c:36-44 | A read returns a prefix of the input with no newline. That prefix stops either at the first newline or at the end of input. |
| LineReader.RestOf | app.c:38-44 | The input is line + newline + rest, or the whole input was the line and nothing is left. Reading always shortens a non-empty input. |
| LineReader.Lines | app.c:23-62 | Successive reads produce at least one line; an empty input produces exactly one empty line. |
| LineReader.LinesRoundTrip | app.c:23-62 | Joining the lines read with newlines gives back the input, except possibly for one final newline. |
| LineReader.LinesHaveNoNewline | app.c:40-44 | No line returned by a read contains a newline. |
| LineReader.ReadLine | app.c:23-62 | The loop returns LineOf and RestOf of the input. The buffer holds the line followed by a NUL. Its capacity is a multiple of 1024 and the smallest such that exceeds the line length, so every write is in bounds. |
| QuotedSpan.FindChar | app.c:69-75 | strstr for one character: None exactly when the character does not occur; otherwise the index of its first occurrence. |
| QuotedSpan.FindBetweenQuote | app.c:65-90 | Any text returned contains no double quote. |
| QuotedSpan.QuoteCount | app.c:69-89 | The result is NULL (None) exactly when the line has fewer than two double quotes. |
| QuotedSpan.QuotedSpanPosition | app.c:71-78 | The text returned lies strictly between the first quote of the line and the next quote after it. |
| QuotedSpan.QuotedSpanOfShape | app.c:69-79 | Converse: a quote-free prefix, a quote, quote-free text, a quote and anything after yield exactly that text. |
| Tokenizer.Tokens | app.c:107-124 | The token sequence strtok yields: its properties are the lemmas TokensAreWords, TokensLayout and TokensOfLayout, and Strtok is proved against it. |
| Tokenizer.RunLength | app.c:107-123 | The run that starts a string contains no delimiter and ends at a delimiter or at the end of the string. |
| Tokenizer.TokensAreWords | app.c:107-124 | No token is empty and no token contains a delimiter. |
| Tokenizer.TokensLayout | app.c:107-124 | Every line is the interleaving of delimiter runs and its tokens, with at least one delimiter between neighbouring tokens. |
| Tokenizer.TokensOfLayout | app.c:107-124 | Uniqueness: any such interleaving of delimiter runs and words tokenizes back to exactly those words. |
| Tokenizer.TokensNonEmpty | app.c:107-124 | A line with any non-delimiter character has at least one token. |
| Tokenizer.Strtok | app.c:107-123 | One strtok call: either it finds the next token, and the remaining tokens are that token followed by the tokens after the resume point, or only delimiters are left and there are no tokens. |
| Tokenizer.Override | app.c:125-130 | Without a quoted span, or with no token, the vector is unchanged (with no token the text sits behind the NULL in tokens[0]). Otherwise the vector has length 2 for a single token and is unchanged in length otherwise; index 1 is the quoted text and every other token keeps its value. |
| Tokenizer.Split | app.c:94-132 | The argument vector lsh_split_line returns: Override of the tokens by the quoted span. SplitOverride and SplitKeepsCommand state its properties; SplitLine is proved against it. |
| Tokenizer.SplitOverride | app.c:125-130 | Without a quoted span the vector is the token list. With one, index 1 is the quoted text and every other token is unchanged. A one-token line gains the text as its second entry, and a quoted span never comes with zero tokens. |
| Tokenizer.SplitKeepsCommand | app.c:126-130 | The override never touches index 0: the vector is empty exactly when there are no tokens, and its first entry is the first token. |
| Tokenizer.OverrideArgOne | app.c:125-130 | On the NULL-terminated array: afterwards the array holds Override of the tokens, followed by NULL. |
| Tokenizer.SplitLine | app.c:94-132 | The array holds Split(line) and then NULL. Its capacity is a multiple of 64 and the smallest such that exceeds the strtok token count. |
| Builtins.NumBuiltins | app.c:182-185 | Five builtins; the name table and the handler table have the same length. |
| Builtins.CdAsWritten | app.c:187-201 | cd as written, the handler the dispatcher runs: usage message and no system call without an argument; otherwise a chdir, followed by an error exactly when chdir succeeds, and nothing else. Always continues. |
| Builtins.CdAsWrittenInverted | app.c:195-198 | Concrete case: a successful `cd /tmp` reports an error, and a failing `cd /missing` is silent. |
| Builtins.Cd | app.c:187-201 | cd as intended: usage message and no system call without an argument; otherwise a chdir, followed by an error exactly when it fails, and nothing else. Always continues. |
| Builtins.CdFixReportsFailure | app.c:195-198 | With an argument, the corrected and the as-written cd always disagree on whether an error is reported. |
| Builtins.Mkdir | app.c:203-217 | Usage message and no system call without an argument; otherwise mkdir with mode 0755, followed by an error exactly when it fails, and nothing else. Always continues. |
| Builtins.Touch | app.c:219-236 | Usage message and no system call without an argument; otherwise an exclusive create with mode 0644, an error exactly when it fails, and a close in either case (two or three effects). Always continues. |
| Builtins.HelpListsBuiltins | app.c:241-250 | The help text is three header lines, one line per table entry in table order, and the footer. |
| Builtins.Help | app.c:238-252 | The loop prints exactly the help text, line by line, and continues. |
| Builtins.IndexIn | app.c:264-270 | Linear search: the first index whose entry equals the name, and None exactly when the name is not in the table. |
| Builtins.Lookup | app.c:264-270 | The first builtin-table match for a name; None exactly when it is not a builtin name. |
| Builtins.LookupTable | app.c:168-173 | The table names are distinct, so each name finds its own entry. |
| Builtins.Exit | app.c:254 | lsh_exit: status 0 and no effect. RunBuiltin and DispatchStatus prove it is the only command that stops the loop. |
| Builtins.Launch | app.c:134-160 | lsh_launch abstracted to one Spawn of the whole argument vector and status 1; DispatchCases proves every name outside the table reaches it. |
| Builtins.RunBuiltin | app.c:175-180 | The handler table builtin_func: lsh_cd as written, lsh_mkdir, lsh_touch, lsh_help, lsh_exit. Exit's handler returns 0 and every other handler returns 1. |
| Builtins.Dispatch | app.c:256-272 | lsh_execute's result, characterised by DispatchCases and DispatchStatus; Execute is proved equal to it. |
| Builtins.DispatchCases | app.c:256-272 | An empty vector does nothing and continues. A name in the table runs the handler paired with it (exit returns 0 with no effect). Any other name is launched and continues. |
| Builtins.DispatchStatus | app.c:254-272 | The status is 0 exactly when args[0] is "exit", and 1 otherwise, including after failures and launches. |
| Builtins.Invoke | app.c:268 | The call through builtin_func[i], help running its loop, gives exactly the RunBuiltin outcome of that handler. |
| Builtins.Execute | app.c:256-272 | The loop over the table returns exactly the Dispatch outcome. |
| ShellLoop.Session | app.c:274-290 | The lsh_loop run over a finite input: Loop is proved equal to it, and SessionStopsAtFirstExit and SessionFollowsLines state which lines it runs, their effects and when it stops. |
| ShellLoop.FirstExit | app.c:280-289 | The index of the first line whose first word is exit, or the number of lines when there is none. |
| ShellLoop.StopsExactlyOnExit | app.c:285-289 | A line stops the loop exactly when its first token is "exit". |
| ShellLoop.BlankLineContinues | app.c:259-262 | A line of delimiters only (or nothing) runs nothing and keeps the loop going. |
| ShellLoop.EndOfInputIdles | app.c:38-44 | At end of input a read returns the empty line and consumes nothing, so the iteration only prints the prompt and continues. |
| ShellLoop.SessionFollowsLines | app.c:280-289 | The loop runs the lines read, in order, up to the first exit line, with the effects of running each of them. |
| ShellLoop.UpToFirstExit | app.c:280-289 | "Up to the first exit line" is the prefix that ends at FirstExit. |
| ShellLoop.SessionStopsAtFirstExit | app.c:280-289 | The loop exits exactly when some line starts with exit. It runs the lines up to and including the first such line, or all of them. The effects are the prompt and the command effects of each of those lines, in order. |
| ShellLoop.SessionStep | app.c:280-289 | A line that is not exit and is not the last one runs, and the loop carries on with the rest of the input. |
| ShellLoop.ReadSplitExecute | app.c:283-285 | One pass of read, split and execute gives the line read, the input left, and the Dispatch outcome of the split line. |
| ShellLoop.Advance | app.c:280-289 | One iteration moves a line and its effects from what is still to run into what has run. It ends the run on status 0 or at end of input. |
| ShellLoop.Loop | app.c:274-290 | The do-while loop produces exactly Session: the same lines, effects and exit flag. |

## Left out

- Memory-allocation failure (the `allocation error` exits) is not modelled: allocation always succeeds.
- `free(line)` and `free(args)`, and the leak of the quoted-span buffer, are not modelled; Dafny has no deallocation.
- `lsh_launch`'s `fork`, `execvp`, `waitpid` and `perror` are one `Spawn` effect. The child's status, the wait loop, a failing fork and a failing exec are not modelled. The function always returns 1, as the source does.
- The builtins do not change a real file system or working directory. Each records the system call it requests, and its success is the parameter `ok` (per iteration, `os(k)`). A failing `close` is not distinguished.
- `getchar` and `printf` are the input string and `Stdout` effects; buffering and embedded NUL characters are not modelled.
- `strtok` writes NUL bytes into the line; the model's tokens are copies, so that aliasing is not modelled.
- `main` is not modelled; it only calls `lsh_loop`.
- Tokenizer.Override: with a quoted span and a single token, the source writes the text into `tokens[1]`, over the NULL terminator, and leaves `tokens[2]` uninitialised. The model appends the text and puts NULL at index 2, so the vector stays terminated. Reading the garbage slot is not modelled.
- ShellLoop.Session: once the input is used up, the C loop keeps reading empty lines for ever, because `EOF` does not stop it. `Session` stops at the end of the input; EndOfInputIdles shows that every further iteration only prints the prompt.
- There are no `grep`, `rmdir` or `pwd` builtins in `app.c`, and the quoted text always replaces index 1, whatever the command; the model has exactly what the code has.
- C integer width: `position` and `bufsize` in lsh_read_line and lsh_split_line are `int`, and `bufsize * sizeof(char *)` is computed in `size_t`. The model uses unbounded integers, so lines and token counts are assumed to stay below INT_MAX; the overflow of `bufsize += LSH_RL_BUFSIZE` or of the token-array size near that bound is not modelled.
- The dispatcher runs `lsh_cd` as written (`CdAsWritten`); the corrected `Cd` of the Findings table is proved on its own and is not what the loop runs.

## Findings

| source | as written | input that shows it | evidently intended | confidence | as-written member | corrected member |
|---|---|---|---|---|---|---|
| app.c:195 | `if (chdir(args[1]) == -0) perror("lsh");` reports an error when `chdir` returns 0, i.e. on success | `cd /tmp` where `/tmp` exists prints an error; `cd /missing` prints nothing | compare with `-1`, as `lsh_mkdir` and `lsh_touch` do, so the error is reported exactly when the change fails | high (not executed) | Builtins.CdAsWritten, Builtins.CdAsWrittenInverted | Builtins.Cd, Builtins.CdFixReportsFailure |
