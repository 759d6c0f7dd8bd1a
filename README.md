# Dockerfile fixers and course/student services, modelled in Dafny

This project models three parts of a microservice repository.

- **The two Dockerfile fixers** (`frontend/Dockerfilesfixer.py` and `backend/eureka-service/Dockerfilesfixer.py`).
  - `clean_dockerfile` trims lines, drops blank ones and strips trailing comments. It rewrites shell-form `CMD` lines to a default exec-form command.
  - `validate_dockerfile` runs its regular-expression checks and joins their messages.
  - `is_nginx_image` decides whether the file builds an nginx image.
  - `enforce_best_practices` inserts lines into the file:
    - the nginx cache fixes or a user-creation block;
    - a `USER` line before the first `CMD`;
    - for nginx, a `sed` line after the copy of `nginx.conf`;
    - a `HEALTHCHECK`.
  - The step of `analyze_and_fix` that puts back `FROM` images the fix lost.
- **The course store and service** (`CourseRepository.java`, `CourseServiceImpl.java`).
  - A course has a name, a description and an ordered list of student associations.
  - The repository answers two JPQL queries and a bulk `DELETE` of associations, and the service delegates to it.
- **The student endpoints** (`StudentController.java`), with HTTP reduced to a status code and a body.

How the fixers are modelled:
- Python's string operations (`strip`, `splitlines`, `'\n'.join`, `in`, ASCII `lower`) live in `PyText`.
- Each regular expression is a character-level predicate with the same matching positions, with `\d` and `\w` restricted to ASCII (see "## Left out").
- The line lists the fixers build are sequences of entries. Each entry carries its text and its origin: an input line, or one of the added kinds.
- The lines the fixers add are a record of strings (`Additions`). Every property of the rewrite is proved for any record whose lines fit their roles, and the fixers' own constants are shown to fit.
- Each imperative loop is a method proved equal to a specification function. Examples: the CMD rewrite, the `insert_pos` searches, the EXPOSE scan and the missing-image splice.

How the services are modelled:
- The course repository is a class with a sequence of courses ordered by id and the next generated id.
- The student service is a class with a map from id to student record.
- `save`, `update` and the `DELETE` are methods tying the new state to the old.
- The queries are functions over the stored courses.

Modules, one or two per file:
- `SeqUtil`: sequence helpers.
- `PyText`: Python string semantics.
- `DockerfileCommon`: image extraction, cleaning, CMD defaults and the missing-image step.
- `DockerfileChecks`: the validators' searches and messages.
- `DockerfileRewrite`: entries, the CMD rewrite and the insertion steps shared by both fixers.
- `FrontendLines` and `FrontendFixer`, with `FrontendProperties`.
- `EurekaLines` and `EurekaFixer`, with `EurekaProperties`.
- `CourseStore`, `CourseServices` and `StudentEndpoints`.

Where the code and the usual description of the services differ, the model follows the code:
- **Search.** The course search is a JPQL `LIKE` with the text spliced between `%` signs, so `%` and `_` in the text are wildcards. For text without them it is the case-insensitive substring test, as `CourseStore.SearchSpec` proves; `CourseStore.UnderscoreIsWildcard` shows the difference.
- **Unknown student ids.** `update`, `updateWithImage` and `viewImage` dereference the result of `findById` without a null check. With no such student they fail with an exception, modelled as status 500, not 404.
- **Which lines the eureka fixer inspects.** It asks whether a HEALTHCHECK exists on the input lines, before anything is inserted. The frontend fixer asks again after its insertions, on the new lines. Each is modelled as written.

## Model

| member | source | states |
|---|---|---|
| PyText.Strip | frontend/Dockerfilesfixer.py:62 | `str.strip()`: the result is a slice of the input that starts and ends with a non-whitespace character (Python's `isspace` set), and it is empty exactly when the input is all whitespace |
| PyText.SplitLines | frontend/Dockerfilesfixer.py:62 | `str.splitlines()`: no resulting line holds a line break |
| PyText.SplitJoin | frontend/Dockerfilesfixer.py:74 | splitting a `'\n'.join` of break-free lines gives the lines back, less a trailing empty line |
| PyText.Upper | backend/course-service/src/main/java/com/microservices/courseservice/models/repository/CourseRepository.java:18 | `UPPER`: same length, and each character is the upper-case form of the input's (ASCII letters) |
| DockerfileCommon.FromMatchAt | frontend/Dockerfilesfixer.py:58 | a match of `^FROM\s+([^\s]+)` at p captures a non-empty whitespace-free token at least one space after `FROM`; the token ends at whitespace or at the end of the text |
| DockerfileCommon.ExtractImagesAsWritten | frontend/Dockerfilesfixer.py:56-58 | every image `re.findall` returns over the whole content is a non-empty whitespace-free token |
| DockerfileCommon.ExtractImages | backend/eureka-service/Dockerfilesfixer.py:55-57 | the corrected extraction (the pattern line by line) returns only non-empty whitespace-free tokens |
| DockerfileCommon.LineImages | frontend/Dockerfilesfixer.py:58 | on a single line, only a match at column 0 counts, so the whole-content and the line-by-line extraction agree there |
| DockerfileCommon.FromLineImage | frontend/Dockerfilesfixer.py:306 | the line `FROM img` yields exactly `[img]` |
| DockerfileCommon.ImagesOfFromLines | frontend/Dockerfilesfixer.py:306 | extracting from the `FROM` lines built for a list of images gives that list back, in order |
| DockerfileCommon.ImagesOfLinesAppend | frontend/Dockerfilesfixer.py:58 | line-by-line extraction distributes over concatenation of line lists |
| DockerfileCommon.FromCrossesLines | frontend/Dockerfilesfixer.py:58 | as written, `FROM\nRUN x` yields `["RUN"]` because `\s+` crosses the line break; the corrected extraction yields `[]` |
| DockerfileCommon.AsWrittenInsertedLine | frontend/Dockerfilesfixer.py:58 | as written, `FROM\nFROM node` yields `["FROM"]`: the bare `FROM` line takes the next line's keyword as its image |
| DockerfileCommon.ReinsertAsWrittenLosesImage | frontend/Dockerfilesfixer.py:295-307 | as written, cleaned `FROM node` and fixed `FROM` give `FROM\nFROM node`, from which `node` is no longer extracted |
| DockerfileCommon.StripTrailingComment | frontend/Dockerfilesfixer.py:66 | the result is a prefix of the line |
| DockerfileCommon.StripTrailingCommentSpec | frontend/Dockerfilesfixer.py:66 | `re.sub(r'\s*#[^"\']*$', '', line)`: when something is cut, the pattern matches at the cut point, and it matches at no earlier position |
| DockerfileCommon.StripTrailingCommentStripped | frontend/Dockerfilesfixer.py:62-66 | a stripped, non-empty line that is not a comment stays non-empty and stripped |
| DockerfileCommon.JavaCmdIsExec | frontend/Dockerfilesfixer.py:72 | the Java replacement `CMD ["java", "-jar", "/app/course-service.jar"]` is exec form, starts with CMD, is stripped and is one line |
| DockerfileCommon.NginxCmdIsExec | frontend/Dockerfilesfixer.py:70 | the nginx replacement `CMD ["nginx", "-g", "daemon off;"]` is exec form, starts with CMD, is stripped and is one line |
| DockerfileCommon.DefaultCmd | frontend/Dockerfilesfixer.py:69-72 | the replacement CMD is one of the two; it is the nginx one exactly when the fixer is nginx-aware and the lower-cased content contains `nginx` (the eureka fixer always uses the Java one) |
| DockerfileCommon.CleanDockerfile | frontend/Dockerfilesfixer.py:60-74 | the loop's result is the join of the cleaned lines, for both fixers (eureka: backend/eureka-service/Dockerfilesfixer.py:59-74) |
| DockerfileCommon.CleanOne | frontend/Dockerfilesfixer.py:65-72 | one pass of the loop: a line that is not a comment loses its trailing comment, and a CMD line not in exec form becomes the default command (nginx when the nginx-aware fixer sees "nginx" in the lower-cased content, java otherwise) |
| DockerfileCommon.NonBlankLinesShape | frontend/Dockerfilesfixer.py:62 | every kept line is non-empty, stripped and free of line breaks |
| DockerfileCommon.CleanLineSpec | frontend/Dockerfilesfixer.py:64-73 | a comment line is kept as is; other lines lose only their trailing comment; a resulting CMD line is in exec form, and one changed beyond comment removal is the replacement |
| DockerfileCommon.CleanedLinesSpec | frontend/Dockerfilesfixer.py:62-74 | one cleaned line per non-blank input line, in order, each related to its input line as CleanLineSpec states |
| DockerfileCommon.CleanedSplitsBack | frontend/Dockerfilesfixer.py:74 | splitting the cleaned content gives the cleaned lines back, which is what `enforce_best_practices` then works on |
| DockerfileCommon.NothingMissing | frontend/Dockerfilesfixer.py:296-297 | the missing-image list is empty exactly when every original image is still extracted |
| DockerfileCommon.ReinsertKeepsImages | frontend/Dockerfilesfixer.py:301-307 | after the `FROM` lines of the missing images are spliced in after the last `FROM` line, every original image is extracted from the result |
| DockerfileCommon.ReinsertMissingImages | frontend/Dockerfilesfixer.py:295-307 | the step (shared by both fixers, eureka: backend/eureka-service/Dockerfilesfixer.py:262-276) keeps every image of the cleaned input, and leaves the content unchanged when nothing is missing |
| DockerfileChecks.ExposeSearchFrom | frontend/Dockerfilesfixer.py:83 | `re.search(r'EXPOSE\s+(\d+)')` from p: no match exactly when no position matches; a match's group is all digits |
| DockerfileChecks.ExposePortOf | frontend/Dockerfilesfixer.py:83 | the EXPOSE group is a non-empty digit string, and absent exactly when no position matches |
| DockerfileChecks.LocalhostOnLine | frontend/Dockerfilesfixer.py:94 | `.*` does not cross a line break: the port found lies after `http://localhost:` on the HEALTHCHECK's own line |
| DockerfileChecks.HealthcheckSearchFrom | frontend/Dockerfilesfixer.py:94 | `re.search(r'HEALTHCHECK.*http://localhost:(\d+)')` from p: no match exactly when no position matches; a match's group is all digits |
| DockerfileChecks.HealthcheckPortOf | frontend/Dockerfilesfixer.py:94 | the HEALTHCHECK port is a non-empty digit string, and absent exactly when no position matches |
| DockerfileChecks.HasHealthcheckCmdTrueFrom | backend/eureka-service/Dockerfilesfixer.py:94 | true exactly when some position has `HEALTHCHECK` followed by `CMD true` on the same line |
| DockerfileChecks.HasExecCmdFrom | frontend/Dockerfilesfixer.py:100 | true exactly when some position matches `CMD\s+\[".*"\]` (both validators; eureka: backend/eureka-service/Dockerfilesfixer.py:97) |
| DockerfileChecks.HasUserFrom | frontend/Dockerfilesfixer.py:103 | true exactly when some position matches `USER\s+[\w\d]+` (both validators; eureka: backend/eureka-service/Dockerfilesfixer.py:100) |
| DockerfileChecks.QuoteAndExposeChecks | frontend/Dockerfilesfixer.py:78-92 | the errors the quote and EXPOSE checks append, in order, for both validators |
| DockerfileChecks.QuoteAndExposeErrorsSpec | frontend/Dockerfilesfixer.py:80-92 | no error exactly when the number of `"` is even and an EXPOSE port in 1..65535 is present; no message is empty |
| DockerfileChecks.JoinNonEmpty | frontend/Dockerfilesfixer.py:106 | the joined message is empty exactly when there is no error |
| DockerfileRewrite.FixCmdSpec | frontend/Dockerfilesfixer.py:189-196 | the CMD rewrite keeps a line's CMD-ness and HEALTHCHECK-ness, leaves non-CMD lines alone, and a CMD line afterwards is in exec form |
| DockerfileRewrite.FixCmdsExec | frontend/Dockerfilesfixer.py:189-196 | after the CMD rewrite every CMD line is in exec form |
| DockerfileRewrite.SourceTextsFixCmds | frontend/Dockerfilesfixer.py:189-196 | the rewrite of entries acts on the original lines exactly as the line rewrite does |
| DockerfileRewrite.FirstCmdFixCmds | frontend/Dockerfilesfixer.py:189-196 | the CMD rewrite does not move the first CMD line |
| DockerfileRewrite.CountFixCmds | frontend/Dockerfilesfixer.py:189-196 | the CMD rewrite keeps the number of lines of every origin |
| DockerfileRewrite.DefaultsAreExec | frontend/Dockerfilesfixer.py:192-194 | both replacement CMD lines are stripped exec-form CMD lines |
| DockerfileRewrite.FixCmdLoop | frontend/Dockerfilesfixer.py:189-196 | the loop appends, line by line, the replacement for each shell-form CMD line and every other line unchanged |
| DockerfileRewrite.FindFirst | frontend/Dockerfilesfixer.py:152-155 | the loop with `break` finds the first matching line, or None |
| DockerfileRewrite.InsertBlock | frontend/Dockerfilesfixer.py:177-178 | inserting a block line by line in reverse at one position is inserting the block there |
| DockerfileRewrite.InsertBeforeFirstLines | frontend/Dockerfilesfixer.py:150-157 | the lines after inserting before the first matching line (nothing when there is none) |
| DockerfileRewrite.PlaceBeforeFirstLines | frontend/Dockerfilesfixer.py:214-222 | the lines after inserting before the first matching line, or at the end when there is none |
| DockerfileRewrite.InsertAfterFirstLines | frontend/Dockerfilesfixer.py:200-204 | the lines after inserting right after the first matching line (nothing when there is none) |
| DockerfileRewrite.PlaceBeforeFirstSpec | frontend/Dockerfilesfixer.py:214-222 | the inserted line lands right before the first matching line with no matching line before it, or last when no line matches |
| DockerfileRewrite.AddBeforeFirstKeeps | frontend/Dockerfilesfixer.py:156-157 | inserting before the first CMD keeps the original lines in order and adds exactly one line when a CMD line exists |
| DockerfileRewrite.PlaceBeforeFirstKeeps | frontend/Dockerfilesfixer.py:219-222 | placing a line keeps the original lines in order and always adds exactly one line |
| DockerfileRewrite.AddAfterFirstKeeps | frontend/Dockerfilesfixer.py:200-204 | inserting after the first match keeps the original lines and adds one line exactly when a line matches |
| DockerfileRewrite.AddBeforeFirstPrecedes | frontend/Dockerfilesfixer.py:150-157 | the inserted USER line comes before every CMD line |
| DockerfileRewrite.AddAfterFirstPlaced | frontend/Dockerfilesfixer.py:200-204 | the inserted line sits right after the first matching line |
| DockerfileRewrite.PlaceBeforeFirstPrecedes | frontend/Dockerfilesfixer.py:214-222 | placing another line keeps a line that preceded every CMD line ahead of them |
| DockerfileRewrite.SwitchStepKeeps | frontend/Dockerfilesfixer.py:179-186 | the USER step keeps the original lines and adds one USER line exactly when there is no USER line but a CMD line |
| DockerfileRewrite.SwitchStepPrecedes | frontend/Dockerfilesfixer.py:179-186 | the added USER line precedes every CMD line |
| DockerfileRewrite.Run | frontend/Dockerfilesfixer.py:134 | a `RUN` line is neither a CMD, USER nor HEALTHCHECK line |
| DockerfileRewrite.RunNotCopy | backend/eureka-service/Dockerfilesfixer.py:126 | a `RUN` line is not picked by the COPY/CMD/ENTRYPOINT test |
| DockerfileRewrite.Block | frontend/Dockerfilesfixer.py:133-140 | every line of a `RUN set -eux; \` block is a plain line |
| DockerfileRewrite.UserLine | frontend/Dockerfilesfixer.py:186 | `USER who` is a USER line and neither a CMD nor a HEALTHCHECK line |
| DockerfileRewrite.HealthcheckLine | frontend/Dockerfilesfixer.py:210-213 | a `HEALTHCHECK` text is a HEALTHCHECK line and neither a CMD nor a USER line, even though its second line starts with CMD |
| DockerfileRewrite.CountInsertTagged | frontend/Dockerfilesfixer.py:147-148 | inserting a block adds exactly its lines to the count of its origin |
| DockerfileRewrite.AnyInsertPlain | frontend/Dockerfilesfixer.py:177-178 | inserting plain lines changes neither whether a CMD line exists nor whether a HEALTHCHECK line exists |
| FrontendLines.FrontendFits | frontend/Dockerfilesfixer.py:133-140 | the fixer's own lines fit their roles: the nginx fixes (6 lines), the user creation block (7 lines, frontend/Dockerfilesfixer.py:163-171) and the sed line are plain, the USER lines only switch user, the CMD defaults are exec form |
| FrontendLines.HealthcheckText | frontend/Dockerfilesfixer.py:209-213 | the added text is a HEALTHCHECK line and neither a CMD nor a USER line |
| FrontendFixer.FailedChecksSpec | frontend/Dockerfilesfixer.py:76-106 | no message exactly when the content is valid: even quotes, EXPOSE port in 1..65535, a localhost HEALTHCHECK port equal to it, an exec CMD, and a USER unless `nginx` occurs; no message is empty |
| FrontendFixer.HealthcheckChecks | frontend/Dockerfilesfixer.py:94-98 | the HEALTHCHECK check alone: "missing" when no HEALTHCHECK names a localhost port, a mismatch naming both ports when an EXPOSE port exists and differs, nothing otherwise |
| FrontendFixer.Validate | frontend/Dockerfilesfixer.py:76-106 | ok exactly when valid; the message is empty exactly when ok, and is the failed checks joined by newlines in check order |
| FrontendFixer.IsNginxImage | frontend/Dockerfilesfixer.py:108-111 | true exactly when some image the whole-content FROM pattern finds, as written, contains `nginx` in any case |
| FrontendFixer.BareFromNginx | frontend/Dockerfilesfixer.py:108-111 | a bare `FROM` line followed by `nginx` counts as an nginx image, because the pattern reads the image across the line break |
| FrontendFixer.ExposeMatch | frontend/Dockerfilesfixer.py:123-126 | the port an EXPOSE line yields is a non-empty digit string |
| FrontendFixer.ExposePortDefault | frontend/Dockerfilesfixer.py:117-126 | with no EXPOSE line naming a port the port is `8080` |
| FrontendFixer.ExposePortLast | frontend/Dockerfilesfixer.py:122-126 | otherwise the last EXPOSE line naming a port wins |
| FrontendFixer.ScanExposePort | frontend/Dockerfilesfixer.py:117-126 | the loop computes that port |
| FrontendFixer.NginxFixesPosSpec | frontend/Dockerfilesfixer.py:141-146 | the nginx fixes go right after a FROM line of the leading run of FROM and blank lines, with only blank lines between them and the first other line |
| FrontendFixer.NginxFixesPosAt | frontend/Dockerfilesfixer.py:141-146 | the position is just after the last FROM line before the first non-blank non-FROM line |
| FrontendFixer.NginxFixesPosAll | frontend/Dockerfilesfixer.py:141-146 | with no such line, it is just after the last FROM line (0 when there is none) |
| FrontendFixer.NginxInsertPos | frontend/Dockerfilesfixer.py:141-146 | the loop with `break` computes that position |
| FrontendFixer.UserCreationPos | frontend/Dockerfilesfixer.py:172-176 | the user creation block goes before the first COPY, CMD or ENTRYPOINT line, with none before it, or at the end |
| FrontendFixer.ProbeEntry | frontend/Dockerfilesfixer.py:206-213 | the added HEALTHCHECK is a HEALTHCHECK line, not a CMD line, tagged as added |
| FrontendFixer.NginxBranchLines | frontend/Dockerfilesfixer.py:132-157 | the nginx branch's lines are those of the nginx stage |
| FrontendFixer.AppBranchLines | frontend/Dockerfilesfixer.py:160-186 | the other branch's lines are those of the application stage |
| FrontendFixer.BeforeHealthcheckLines | frontend/Dockerfilesfixer.py:188-204 | the branch, the CMD rewrite and, for nginx, the sed line |
| FrontendFixer.HealthcheckStepLines | frontend/Dockerfilesfixer.py:206-222 | the HEALTHCHECK step on the lines |
| FrontendFixer.EnforcedLines | frontend/Dockerfilesfixer.py:113-222 | the lines `enforce_best_practices` joins are those of the rewrite with provenance |
| FrontendFixer.EnforceBestPractices | frontend/Dockerfilesfixer.py:113-224 | the result is those lines joined by newlines, with the fixer's own added lines |
| FrontendProperties.NginxStageKeeps | frontend/Dockerfilesfixer.py:132-157 | the nginx branch keeps every original line, in order |
| FrontendProperties.NginxStageAny | frontend/Dockerfilesfixer.py:147-157 | the nginx branch adds no CMD or HEALTHCHECK line |
| FrontendProperties.NginxStageCount | frontend/Dockerfilesfixer.py:132-157 | it adds exactly the 6 fix lines, plus the USER line when there is no USER line but a CMD line |
| FrontendProperties.AppStageKeeps | frontend/Dockerfilesfixer.py:160-186 | the other branch keeps every original line, in order |
| FrontendProperties.AppStageAny | frontend/Dockerfilesfixer.py:160-186 | the other branch adds no CMD or HEALTHCHECK line |
| FrontendProperties.AppStageCount | frontend/Dockerfilesfixer.py:160-186 | it adds the user creation block unless a line mentions useradd or adduser, and the USER line when there is no USER line but a CMD line |
| FrontendProperties.BranchKeepsSource | frontend/Dockerfilesfixer.py:132-186 | either branch keeps every original line, in order |
| FrontendProperties.BranchAny | frontend/Dockerfilesfixer.py:132-186 | either branch adds no CMD or HEALTHCHECK line |
| FrontendProperties.BranchCount | frontend/Dockerfilesfixer.py:132-186 | the lines either branch adds, by origin |
| FrontendProperties.BranchUserPlaced | frontend/Dockerfilesfixer.py:150-157 | without a USER line but with a CMD line, the added USER line precedes every CMD line (also frontend/Dockerfilesfixer.py:179-186) |
| FrontendProperties.BeforeHealthcheckKeeps | frontend/Dockerfilesfixer.py:188-196 | before the HEALTHCHECK step the original lines are there in order, each with its CMD rewritten |
| FrontendProperties.BeforeHealthcheckAny | frontend/Dockerfilesfixer.py:188-207 | a HEALTHCHECK line exists then exactly when the input had one |
| FrontendProperties.BeforeHealthcheckCount | frontend/Dockerfilesfixer.py:198-204 | the lines added so far, by origin, the sed line counting once when a line copies nginx.conf |
| FrontendProperties.SedPlaced | frontend/Dockerfilesfixer.py:199-204 | the sed line sits right after the first line that copies nginx.conf |
| FrontendProperties.BeforeHealthcheckUserPlaced | frontend/Dockerfilesfixer.py:179-204 | the USER line still precedes every CMD line after the CMD rewrite and the sed line |
| FrontendProperties.HealthcheckStepKeeps | frontend/Dockerfilesfixer.py:206-222 | the HEALTHCHECK step keeps every line and adds one exactly when none is a HEALTHCHECK line |
| FrontendProperties.HealthcheckStepAll | frontend/Dockerfilesfixer.py:206-222 | the step keeps a property every line and the added line have |
| FrontendProperties.HealthcheckStepHas | frontend/Dockerfilesfixer.py:206-222 | after the step some line is a HEALTHCHECK line |
| FrontendProperties.HealthcheckStepPrecedes | frontend/Dockerfilesfixer.py:214-222 | the step keeps a line that preceded every CMD line ahead of them |
| FrontendProperties.RewriteKeepsSource | frontend/Dockerfilesfixer.py:113-222 | the output holds the original lines in order, each with its CMD rewritten, and nothing else of theirs |
| FrontendProperties.RewriteCmdsExec | frontend/Dockerfilesfixer.py:188-222 | every CMD line of the output is in exec form |
| FrontendProperties.RewriteHasHealthcheck | frontend/Dockerfilesfixer.py:206-222 | the output has a HEALTHCHECK line |
| FrontendProperties.RewriteCount | frontend/Dockerfilesfixer.py:113-222 | exactly which lines are added, by origin: the branch's block, the USER line, the sed line, the HEALTHCHECK |
| FrontendProperties.RewriteHealthcheckPlaced | frontend/Dockerfilesfixer.py:214-222 | an added HEALTHCHECK sits right before the first CMD line, or last when there is none |
| FrontendProperties.RewriteUserPlaced | frontend/Dockerfilesfixer.py:179-186 | an added USER line precedes every CMD line of the output |
| FrontendProperties.FrontendRewriteSpec | frontend/Dockerfilesfixer.py:113-224 | with the fixer's own lines: originals kept in order with CMDs rewritten to the nginx or Java default, all CMDs exec form, a HEALTHCHECK present |
| EurekaLines.EurekaFits | backend/eureka-service/Dockerfilesfixer.py:125-133 | the fixer's own lines fit their roles: the user creation entry is plain and not COPY/CMD/ENTRYPOINT, `USER 1001:1001` only switches user (backend/eureka-service/Dockerfilesfixer.py:158), the CMD default is exec form, the HEALTHCHECK (backend/eureka-service/Dockerfilesfixer.py:162-165) is not a CMD line |
| EurekaFixer.FailedChecksSpec | backend/eureka-service/Dockerfilesfixer.py:76-103 | no message exactly when the content is valid: even quotes, EXPOSE port in 1..65535, `HEALTHCHECK ... CMD true` on one line, an exec CMD and a USER instruction; no message is empty |
| EurekaFixer.Validate | backend/eureka-service/Dockerfilesfixer.py:76-103 | ok exactly when valid; the message is empty exactly when ok, and is the failed checks joined by newlines in check order |
| EurekaFixer.EnforcedLines | backend/eureka-service/Dockerfilesfixer.py:105-175 | the lines `enforce_best_practices` joins are those of the rewrite with provenance |
| EurekaFixer.EnforceBestPractices | backend/eureka-service/Dockerfilesfixer.py:105-177 | the result is those lines joined by newlines, with the fixer's own added lines |
| EurekaProperties.UserBlockStageKeeps | backend/eureka-service/Dockerfilesfixer.py:124-141 | the user creation step keeps every original line in order and adds the entry exactly when no line mentions useradd, adduser or USER |
| EurekaProperties.UserBlockStageAny | backend/eureka-service/Dockerfilesfixer.py:124-141 | the user creation step adds no line of the kind the entry is not |
| EurekaProperties.UserBlockPlaced | backend/eureka-service/Dockerfilesfixer.py:134-140 | the entry sits right before the first COPY, CMD or ENTRYPOINT line, or last |
| EurekaProperties.FixedStageAny | backend/eureka-service/Dockerfilesfixer.py:143-148 | after the CMD rewrite a CMD line, and a HEALTHCHECK line, exist exactly when the input had one |
| EurekaProperties.BeforeHealthcheckKeeps | backend/eureka-service/Dockerfilesfixer.py:143-158 | before the HEALTHCHECK step the original lines are there in order, each with its CMD rewritten |
| EurekaProperties.BeforeHealthcheckCount | backend/eureka-service/Dockerfilesfixer.py:124-158 | the lines added so far, by origin |
| EurekaProperties.RewriteKeepsSource | backend/eureka-service/Dockerfilesfixer.py:105-177 | the output holds the original lines in order, each with its CMD rewritten |
| EurekaProperties.HealthcheckStepCount | backend/eureka-service/Dockerfilesfixer.py:160-175 | the HEALTHCHECK step adds one line exactly when the input had no HEALTHCHECK line |
| EurekaProperties.RewriteCount | backend/eureka-service/Dockerfilesfixer.py:105-177 | exactly which lines are added, by origin: the user creation entry, the USER line, the HEALTHCHECK |
| EurekaProperties.RewriteCmdsExec | backend/eureka-service/Dockerfilesfixer.py:143-175 | every CMD line of the output is in exec form |
| EurekaProperties.HealthcheckKept | backend/eureka-service/Dockerfilesfixer.py:120 | an input HEALTHCHECK line survives to the HEALTHCHECK step |
| EurekaProperties.HealthcheckAdded | backend/eureka-service/Dockerfilesfixer.py:160-175 | without one, the added HEALTHCHECK is in the output |
| EurekaProperties.RewriteHasHealthcheck | backend/eureka-service/Dockerfilesfixer.py:160-175 | the output has a HEALTHCHECK line |
| EurekaProperties.RewriteHealthcheckPlaced | backend/eureka-service/Dockerfilesfixer.py:166-175 | an added HEALTHCHECK sits right before the first CMD line, or last |
| EurekaProperties.RewriteUserPlaced | backend/eureka-service/Dockerfilesfixer.py:150-158 | an added USER line precedes every CMD line of the output |
| EurekaProperties.RewriteNoSecondHealthcheck | backend/eureka-service/Dockerfilesfixer.py:161 | no HEALTHCHECK is added when the input has one |
| EurekaProperties.EnforcedSpec | backend/eureka-service/Dockerfilesfixer.py:105-177 | with the fixer's own lines: originals kept in order with CMDs rewritten to the Java default, all CMDs exec form, a HEALTHCHECK present |
| CourseStore.Lookup | backend/course-service/src/main/java/com/microservices/courseservice/models/repository/CourseRepository.java:13 | `findById`: a found course is stored and has the id; nothing is found exactly when no stored course has it |
| CourseStore.LookupAppendFresh | backend/course-service/src/main/java/com/microservices/courseservice/models/repository/CourseRepository.java:13 | a course appended with an id above all stored ids is found by it |
| CourseStore.LookupAppendOther | backend/course-service/src/main/java/com/microservices/courseservice/models/repository/CourseRepository.java:13 | appending a course does not change the lookup of any other id |
| CourseStore.LookupReplace | backend/course-service/src/main/java/com/microservices/courseservice/models/repository/CourseRepository.java:13 | after saving over a stored id, that id yields the new course and every other id what it yielded before |
| CourseStore.ReplaceWellKeyed | backend/course-service/src/main/java/com/microservices/courseservice/models/repository/CourseRepository.java:13 | saving over a stored id keeps the ids ordered and below the next generated id |
| CourseStore.ByStudentSpec | backend/course-service/src/main/java/com/microservices/courseservice/models/repository/CourseRepository.java:15-16 | a found course is stored and holds an association with the student; when exactly one stored course holds one, the answer is that course; the answer is null exactly when no course holds one, and the single-result exception exactly when two or more do |
| CourseStore.LikePrefix | backend/course-service/src/main/java/com/microservices/courseservice/models/repository/CourseRepository.java:18 | for text without wildcards, LIKE `q%` matches exactly the strings starting with q |
| CourseStore.LikeContains | backend/course-service/src/main/java/com/microservices/courseservice/models/repository/CourseRepository.java:18 | for text without wildcards, LIKE `%q%` matches exactly the strings containing q |
| CourseStore.SearchSpec | backend/course-service/src/main/java/com/microservices/courseservice/models/repository/CourseRepository.java:18-19 | for text without `%` or `_`, a course is selected exactly when it is stored and its upper-cased name or description contains the upper-cased text |
| CourseStore.SearchMath | backend/course-service/src/main/java/com/microservices/courseservice/models/repository/CourseRepository.java:18 | searching `math` selects a course named `Math` |
| CourseStore.UnderscoreIsWildcard | backend/course-service/src/main/java/com/microservices/courseservice/models/repository/CourseRepository.java:18 | searching `a_c` selects a course named `abc`, although `ABC` does not contain `A_C` |
| CourseStore.WithoutStudentSpec | backend/course-service/src/main/java/com/microservices/courseservice/models/repository/CourseRepository.java:21-24 | the DELETE keeps every course with its id, name and description, and removes exactly the associations with the student |
| CourseStore.WithoutStudentNone | backend/course-service/src/main/java/com/microservices/courseservice/models/repository/CourseRepository.java:21-24 | afterwards no course is found by the student |
| CourseStore.WithoutStudentNoop | backend/course-service/src/main/java/com/microservices/courseservice/models/repository/CourseRepository.java:23 | a student without associations changes nothing |
| CourseStore.WithoutStudentTwice | backend/course-service/src/main/java/com/microservices/courseservice/models/repository/CourseRepository.java:23 | a second delete of the same student changes nothing |
| CourseStore.WithoutStudentLookup | backend/course-service/src/main/java/com/microservices/courseservice/models/repository/CourseRepository.java:23 | every course is still found by its id |
| CourseStore.CourseRepository.FindAll | backend/course-service/src/main/java/com/microservices/courseservice/models/repository/CourseRepository.java:13 | `findAll` returns the stored courses |
| CourseStore.CourseRepository.FindById | backend/course-service/src/main/java/com/microservices/courseservice/models/repository/CourseRepository.java:13 | `findById` returns the stored course with the id, or None exactly when there is none |
| CourseStore.CourseRepository.Save | backend/course-service/src/main/java/com/microservices/courseservice/models/repository/CourseRepository.java:13 | `save` keeps the given fields; a stored id is replaced in place, anything else gets the next id and is appended; the saved course is then found by its id |
| CourseStore.CourseRepository.FindCourseByStudentId | backend/course-service/src/main/java/com/microservices/courseservice/models/repository/CourseRepository.java:15-16 | the single-result query over the join |
| CourseStore.CourseRepository.FindByNameOrDescription | backend/course-service/src/main/java/com/microservices/courseservice/models/repository/CourseRepository.java:18-19 | the courses the LIKE query selects, in store order |
| CourseStore.CourseRepository.DeleteCourseStudentById | backend/course-service/src/main/java/com/microservices/courseservice/models/repository/CourseRepository.java:21-24 | the associations with the student are removed from every course, nothing else changes |
| CourseServices.CourseService.FindAll | backend/course-service/src/main/java/com/microservices/courseservice/services/CourseServiceImpl.java:30-34 | exactly the stored courses |
| CourseServices.CourseService.FindById | backend/course-service/src/main/java/com/microservices/courseservice/services/CourseServiceImpl.java:36-40 | exactly the repository's lookup: the stored course with the id, or null (None) with no error when there is none |
| CourseServices.CourseService.Save | backend/course-service/src/main/java/com/microservices/courseservice/services/CourseServiceImpl.java:42-46 | the saved course keeps name, description and associations and is found by its id; a course with a stored id replaces it in place and keeps the id and counter; any other gets the next id, which no stored course had, and is appended with the counter advanced; no other course changes |
| CourseServices.CourseService.FindCourseByStudentId | backend/course-service/src/main/java/com/microservices/courseservice/services/CourseServiceImpl.java:48-52 | the repository's answer, unchanged store; a found course holds an association with the student |
| CourseServices.CourseService.DeleteCourseStudentById | backend/course-service/src/main/java/com/microservices/courseservice/services/CourseServiceImpl.java:65-69 | no course is associated with the student afterwards, and every stored course is still found by its id |
| CourseServices.CourseService.FindByNameOrDescription | backend/course-service/src/main/java/com/microservices/courseservice/services/CourseServiceImpl.java:71-75 | the repository's selection, unchanged store |
| StudentEndpoints.CopiedSpec | backend/user-service/src/main/java/com/microservices/users/controllers/StudentController.java:96-102 | an update keeps the stored id, takes name, last name and email from the request, and replaces the image only with a non-empty upload (`update`, backend/user-service/src/main/java/com/microservices/users/controllers/StudentController.java:65-68, keeps it) |
| StudentEndpoints.EmptyUploadIsUpdate | backend/user-service/src/main/java/com/microservices/users/controllers/StudentController.java:100-102 | `updateWithImage` with an empty upload saves what `update` saves |
| StudentEndpoints.CopiedIdempotent | backend/user-service/src/main/java/com/microservices/users/controllers/StudentController.java:96-102 | repeating an update changes nothing more |
| StudentEndpoints.CopiedLastWins | backend/user-service/src/main/java/com/microservices/users/controllers/StudentController.java:96-102 | of two updates the later one's fields win, and its image only when it uploads one |
| StudentEndpoints.StudentStore.FindById | backend/user-service/src/main/java/com/microservices/users/controllers/StudentController.java:65 | the stored student, or null (None) exactly when none has the id |
| StudentEndpoints.StudentStore.Save | backend/user-service/src/main/java/com/microservices/users/controllers/StudentController.java:86 | a new student is stored under a fresh id |
| StudentEndpoints.StudentStore.Update | backend/user-service/src/main/java/com/microservices/users/controllers/StudentController.java:69 | the stored record of the student is replaced |
| StudentEndpoints.StudentController.ServiceList | backend/user-service/src/main/java/com/microservices/users/controllers/StudentController.java:41-75 | `getStudentsByCourse` (lines 41-44) and `filter` (lines 72-75): 200 with the students the service found for the ids or the text, unchanged |
| StudentEndpoints.StudentController.Index | backend/user-service/src/main/java/com/microservices/users/controllers/StudentController.java:46-57 | 200 with the service's page exactly when page >= 0 and size >= 1; otherwise the exception `PageRequest.of` raises (500) |
| StudentEndpoints.StudentController.Update | backend/user-service/src/main/java/com/microservices/users/controllers/StudentController.java:59-70 | 400 with the errors and no change when validation fails; a failing null dereference (500) for an unknown id; otherwise 201 with the stored record carrying the request's name, last name and email |
| StudentEndpoints.StudentController.CreateWithImage | backend/user-service/src/main/java/com/microservices/users/controllers/StudentController.java:77-87 | 400 with the errors and no change when validation fails; otherwise 201 with a new student stored under a fresh id, whose image is the upload when it is not empty |
| StudentEndpoints.StudentController.UpdateWithImage | backend/user-service/src/main/java/com/microservices/users/controllers/StudentController.java:89-104 | as `update`, and a non-empty upload replaces the stored image while an empty one keeps it |
| StudentEndpoints.StudentController.ViewImage | backend/user-service/src/main/java/com/microservices/users/controllers/StudentController.java:106-116 | 404 without an image; 200 with content type image/jpeg and exactly the stored bytes otherwise; 500 for an unknown id |
| StudentEndpoints.CreateThenView | backend/user-service/src/main/java/com/microservices/users/controllers/StudentController.java:77-116 | an image uploaded on creation is what viewImage serves for the new id; without an upload viewImage answers 404 |

## Left out

- The language model, the `trivy` scan, file reading and writing, `print`, `sys.exit` and the prompt text of `analyze_and_fix`. They are I/O or foreign calls. Of `analyze_and_fix` only the missing-image step is modelled; the order in which it calls clean, validate and enforce is not.
- The eureka fixer computes an EXPOSE port in `enforce_best_practices` (backend/eureka-service/Dockerfilesfixer.py:109-117) that nothing uses. The model leaves it out.
- Added lines are modelled as strings in an `Additions` record and proved about generically. The fixers' constants are checked against the roles the proofs need (`FrontendLines.FrontendFits`, `EurekaLines.EurekaFits`), not against every property of their text.
- PyText.Lower: ASCII letters only. Python's `str.lower` and SQL `UPPER` also map other letters, which the inputs of these checks (keywords, image names) do not need. PyText.Upper is limited the same way.
- PyText.IsDigit: ASCII digits only. Python's `\d` matches every Unicode decimal digit and `int()` reads them, so `EXPOSE` or a HEALTHCHECK port written in other scripts (`EXPOSE ٨٠`) is a port for the source and none for the model.
- DockerfileChecks.HasUserFrom: `\w` is taken as ASCII letters, digits and `_`. Python's `\w` also accepts other Unicode letters after `USER`.
- DockerfileCommon.ExtractImages: the missing-image step uses the line-by-line extraction, not the whole-content one; see "## Findings". `FrontendFixer.IsNginxImage` keeps the whole-content extraction as written, so the nginx branch is chosen as the source chooses it.
- CourseStore.SearchSpec: stated only for text without `%` or `_`. For other text the query is the LIKE match `CourseStore.MatchesText`, which `CourseStore.UnderscoreIsWildcard` illustrates.
- CourseStore.CourseRepository.FindByNameOrDescription: returns every selected course. Slicing into a `Page` by a `Pageable` is not modelled.
- CourseStore.ByStudent: several courses holding the student give `NonUnique`, the exception of a single-result query. A course joined twice through duplicate associations is taken once.
- CourseStore.CourseRepository.Save: id generation is the next integer of a counter. Transactions, flushing and the entity manager are not modelled.
- `getExamsIdsWithAnswersByStudentId` and `getStudentsByCourse` of CourseServiceImpl.java are Feign network calls and are not modelled.
- The student service and repository are not part of this model.
  - Their `findById`, `save` and `update` are modelled by `StudentEndpoints.StudentStore`: absent is null, a new student gets a fresh id, and `update` replaces the stored record.
  - Their queries (`findAllById`, `findAllPage`, `findByNameAndLastNameWithPageable`, `findByNameAndLastName`) are parameters of the endpoints that pass them on.
- StudentEndpoints.StudentController.Index: models `index` and `indexPageWithText`. The page content comes from the service as a parameter. Only the `PageRequest.of` check is modelled.
- StudentEndpoints.StudentController.Update, StudentEndpoints.StudentController.UpdateWithImage: the fetched entity is a value changed field by field and then saved. The aliasing of a JPA-managed object is not modelled.
- Bean Validation rules are not modelled: "has errors" is the list of errors the binding produced. Multipart parsing, `IOException`, CORS and JSON serialisation are not modelled either. An upload is its bytes, and the form of `createWithImage` is taken to carry no image of its own.

## Findings

| source | as written | input that shows it | evidently intended | confidence | as-written member | corrected member |
|---|---|---|---|---|---|---|
| frontend/Dockerfilesfixer.py:58 | `^FROM\s+([^\s]+)` with `re.MULTILINE` lets `\s+` run over a line break, so a bare `FROM` line takes the next line's first word as its image. In the missing-image step (frontend/Dockerfilesfixer.py:295-307, the same in backend/eureka-service/Dockerfilesfixer.py:262-276) the spliced `FROM node` line is then read as the image of the bare `FROM` above it. | cleaned content `FROM node`, fixed content `FROM`: the step produces `FROM\nFROM node`, from which `node` is not extracted | each image is taken from its own `FROM` line, so that every original image is present after the step | not executed | DockerfileCommon.ReinsertAsWrittenLosesImage | DockerfileCommon.ReinsertKeepsImages |
