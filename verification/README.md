# QuickChat router, protocol library and client: a verified model

The repository joins chat networks of local nets. A router (`qcrouter`) keeps a cache of all users and
their channels, a table of routes to other routers, and for every local net a translator between chat
datagrams and messages of its own. A protocol library (`qcproto`) writes and reads the QuickChat and
Vypress datagrams. A GTK client (`vqcc-gtk`) looks for networks, lists channels and goes away when its
user does. This project models these parts in Dafny and proves what they promise.

How the files fit together:

- `Basics`, `DList`, `ChanList`, `Messages`, `QcsMessage`: vocabulary; the doubly linked list the sources
  spell out once per list; channel lists as text.
- `CacheModel`, `CacheTheory`, `CacheRuns`: the user cache on values, what each operation does, and what holds
  over every run. `UserCache`: the two linked lists and the pointer arrays updated in place, method by
  method, proved against the model.
- `RouteModel`, `RouteTheory`, `RouteTable`: the same for the route table, with the log of what is sent.
  `RouteNotices` counts who is told of each change.
- `RouterTree` puts exact tables into a whole tree of routers and proves that a broadcast reaches every net
  once, in any order of delivery. `RouterGrowth` and `RouterNews`: a net joins, and the news of it, announced
  and passed on, makes all tables exact again. `RouterCut`, `RouterLoss`, `RouterStorm`, `RouterDamage`: a link
  is cut; when the news of that comes to rest, and what it does to the tables meanwhile.
  `RouterPaths`: a message for one net takes the shortest way there.
- `SwitchModel`, `SwitchEffect`, `Router`, `Switch`, `Enumeration`: what a message does to cache and table, kind by
  kind; disconnecting, meeting a router, copying its cache; the window of message ids.
- `MsgQueue`, `LocalModel`, `LocalTheory`, `LocalConn`: the translator of a local net and the loop that
  drains it. `Translation`, `LocalEffect`, `Answers`: what is passed on, what is not and what is answered, said of
  entries and fields. `NewUsers`, `Refreshing`: who is announced and who is given up, over any history.
  `Crossing`: the way back onto a local net, and a line of chat from wire to wire.
- `WireFormat`, `QchatCodec`, `VypressModel`, `Vypress`: the datagrams as tables of fields; the writer with its
  moving length and the reader with its moving pointer; signatures and duplicates.
- `RouterWire`, `RouterConn`: the byte protocol between routers. `WireBytes`: all formats spelled out.
- `PortScan`, `ClientChanlist`, `IdleMode`: three algorithms of the client.

Classes stand for what the sources change in place. Each of their methods is proved equal to a function of
the old state, and the theorems are about those functions. `dafny verify dfyconfig.toml` checks everything.

Where code and comments disagree the model follows the code, and says exactly when the intent is met:

- `remove_branch` (routetbl.c:104) tests an unsigned for being negative, so removing a net that is not there
  drops the last branch. `RouteModel.CutBranch` does that; `RouteTheory.CutExactly` says when it matters.
- A router that hears of a loss announces it, removes the net and then passes the message on by a table that no
  longer has the net (switch.c:64-74, routetbl.c:385-397), so the message comes back; a router without the net
  announces the loss anew. The window of message ids does not stop this (msg.c:162-169, whose head never moves:
  `Switch.OnlyRepeatsAreHeldBack`). `RouterStorm.LossEndsExactly` says when the news of a loss comes to an end,
  and `RouterDamage.TableSurvivesExactly` when the table stands it.
- `routetbl_add_branch` looks for a net among branches only, so a connection can have its own id as a branch, and
  its loss is then told twice: `RouteNotices.DropConnExactly`, `RouteNotices.ToldTwiceExample`. What
  `remove_branch` drops by mistake nobody is told of: `RouteNotices.SilentLoss`.
- `remove_ue_channel` (usercache.c:251) has the same guard, with a wild copy behind it. The class leaves the
  cache alone, as the log text intends; `CacheRuns.DropChanAsWritten` is the code to the letter, memory sizes aside, and
  `CacheRuns.PartAsWrittenExactly` says when the two agree.
- The Vypress reader steps over its tag without counting it (p_vypress.c:164). The byte behind the packet is
  part of the model; the round trip holds for all of them, and `VypressModel.OverreadExactly` says when it
  matters.
- A missing `#` in a QuickChat datagram is the one failure that is not cleaned up (p_qchat.c:250-252):
  `WireFormat.HalfReadExactly`. `qcs__cleanupmsg` keeps the mode, so every reader takes the mode it had before.
- The client's loop over ports counts in 16 bits: `PortScan.PortLoopEndsExactly`.
- `main_prefs_mode_validator` accepts the null mode (main.c:166-170): `IdleMode.BecomingIdleExactly`.

## Model

| member | source | states |
|---|---|---|
| DList.List.Append | qcrouter/src/usercache.c:117-130 | a node goes behind the tail of a well-linked list; head, tail, counter and every pair of links agree again, and no other node changes its data |
| DList.List.PushFront | qcproto/supp.c:173-186 | a node goes in front of the head, with the same invariant |
| DList.List.Remove | qcrouter/src/usercache.c:142-164 | unlinking by the four cases (only, first, last, middle) removes exactly that node and keeps the list well linked and counted |
| ChanList.SplitJoin | qcrouter/src/usercache.c:333-366 | scanning the printed list `#a#b` gives the names back, for names without the mark |
| ChanList.JoinSplit | qcrouter/src/usercache.c:333-366 | printing the scanned pieces of any text gives that text back |
| ChanList.SplitJoinExactly | qcrouter/src/usercache.c:333-366 | the trip through text keeps the names if and only if none contains the mark |
| ChanList.FirstsDistinct | qcrouter/src/usercache.c:187-212 | the names kept in order of first occurrence are distinct |
| ChanList.FirstsOfDistinct | qcrouter/src/usercache.c:187-212 | a list of distinct names is left as it is |
| CacheModel.Find | qcrouter/src/usercache.c:83-93 | the position found is the first one of that name, and the length of the list if there is none |
| CacheModel.FindUser | qcrouter/src/usercache.c:168-181 | the first user of an id, or the length |
| CacheModel.FindNick | qcrouter/src/usercache.c:631-657 | the first user whose nickname equals the first 31 characters asked for, or the length |
| CacheTheory.RecountTopic | qcrouter/src/usercache.c:133-166 | recounting for other users keeps a channel, with its topic, exactly when somebody is still on it |
| CacheTheory.RecountInv | qcrouter/src/usercache.c:133-166 | recounting for any admissible list of users gives a consistent cache |
| CacheTheory.DropIsRecount | qcrouter/src/usercache.c:229-283 | leaving a channel is the same as recounting all channels for the users without that name |
| CacheTheory.DropChanInv | qcrouter/src/usercache.c:229-283 | leaving a channel keeps the cache consistent |
| CacheTheory.AddChanCounts | qcrouter/src/usercache.c:187-227 | joining keeps every count equal to the number of users whose array holds the channel |
| CacheTheory.AddChanInv | qcrouter/src/usercache.c:187-227 | joining keeps the cache consistent |
| CacheTheory.DropEachIsRecount | qcrouter/src/usercache.c:285-310 | walking a copy of the array while the array shrinks empties it and leaves exact counts |
| CacheTheory.AddEachEffect | qcrouter/src/usercache.c:333-348 | adding names one by one gives the distinct names, clipped, in order of first occurrence; known channels keep their topic, new ones start empty |
| CacheTheory.SetChansEffect | qcrouter/src/usercache.c:312-349 | from a text that starts with the mark: exactly the distinct names in order of first occurrence; no other user changes; a topic survives exactly when somebody else is on the channel |
| CacheTheory.SetOwnList | qcrouter/src/usercache.c:312-366 | feeding a user's own printed list back leaves all users as they were if and only if no name holds the mark |
| CacheTheory.SetOwnListRefs | qcrouter/src/usercache.c:312-366 | and then every reference count by name is what it was |
| CacheRuns.RemoveIdxEffect | qcrouter/src/usercache.c:578-626 | removing a user removes exactly that user, keeps the order of the rest and leaves exact counts |
| CacheRuns.RemoveNetEffect | qcrouter/src/usercache.c:748-767 | the search-and-remove loop leaves exactly the users of other nets, in order, with exact counts |
| CacheRuns.RemoveNetsEffect | qcrouter/src/net.c:136-155 | the same for a list of nets, one after the other |
| CacheRuns.AddInv | qcrouter/src/usercache.c:507-573 | adding or changing a user keeps the cache consistent |
| CacheRuns.SetTopicInv | qcrouter/src/usercache.c:417-428 | setting a topic keeps the cache consistent |
| CacheRuns.ApplyInv | qcrouter/src/usercache.c:507-837 | every single operation, called as the asserts demand, keeps the cache consistent |
| CacheRuns.EveryRunIsConsistent | qcrouter/src/usercache.c:507-837 | after any run from the empty cache counts are positive and exact, arrays hold listed channels once each, names and ids are distinct |
| CacheRuns.RefreshRound | qcrouter/src/usercache.c:813-876 | after a tagging and any operations without another tagging of that net, the dead list is exactly the cached users of the net, in list order, neither created nor acknowledged since |
| CacheRuns.PartAsWrittenExactly | qcrouter/src/usercache.c:229-283 | with the unsigned guard as written, memory sizes aside, parting leaves a consistent cache if and only if the user is on the channel or nobody is |
| CacheRuns.PartAsWrittenExample | qcrouter/src/usercache.c:229-283 | two users with one channel each: one parting the other's channel frees it under its owner |
| UserCache.ChanFind | qcrouter/src/usercache.c:83-94 | returns the first node of that (clipped) name, or null |
| UserCache.ChanAddRef | qcrouter/src/usercache.c:97-131 | the list becomes the one with one more reference, or with a new channel at the end; no node is lost or renamed |
| UserCache.ChanDeleteRef | qcrouter/src/usercache.c:133-166 | one reference less; the node leaves the list exactly with the last one |
| UserCache.UserCache.UserById | qcrouter/src/usercache.c:168-181 | the first node of that id, or null |
| UserCache.UserCache.AddUeChannel | qcrouter/src/usercache.c:187-227 | list, counts and the user's pointers after the call are those of the model, also for a user not linked yet |
| UserCache.UserCache.RemoveUeChannel | qcrouter/src/usercache.c:229-283 | the same for leaving; a channel that is not in the array is left alone |
| UserCache.UserCache.RemoveUeAllChannels | qcrouter/src/usercache.c:285-310 | the walk over the copied array drops every channel, though entries and channels vanish under way |
| UserCache.UserCache.SetUeChannels | qcrouter/src/usercache.c:312-349 | the pointer that jumps from mark to mark has the effect of the model; a text that starts with something else changes nothing |
| UserCache.UserCache.GenerateUeChanlist | qcrouter/src/usercache.c:351-366 | prints the names of the user's array in order |
| UserCache.UserCache.UsercacheAdd | qcrouter/src/usercache.c:507-573 | a new user takes its channels before it is linked; the state afterwards is that of the model, and valid |
| UserCache.UserCache.UsercacheRemove | qcrouter/src/usercache.c:578-626 | the user and its references are gone, everything else as in the model |
| UserCache.UserCache.UsercacheRemoveNet | qcrouter/src/usercache.c:748-767 | the loop that searches again after each removal ends, by the number of users, in the state of the model |
| UserCache.UserCache.UsercacheJoinChan | qcrouter/src/usercache.c:772-787 | joining, for a cached user |
| UserCache.UserCache.UsercachePartChan | qcrouter/src/usercache.c:792-808 | parting, for a cached user |
| UserCache.UserCache.UsercacheSetTopic | qcrouter/src/usercache.c:417-428 | the topic of that channel and nothing else |
| UserCache.UserCache.UsercacheSameTopic | qcrouter/src/usercache.c:456-470 | 1, 0 or -1 as the model says |
| UserCache.UserCache.UsercacheUmodeOf | qcrouter/src/usercache.c:662-671 | the mode of a cached user |
| UserCache.UserCache.UsercacheNicknameOf | qcrouter/src/usercache.c:693-703 | the nickname of a cached user |
| UserCache.UserCache.UsercacheChanlistOf | qcrouter/src/usercache.c:676-687 | the printed list of a cached user |
| UserCache.UserCache.FindUid | qcrouter/src/usercache.c:646-657 | the id of a nickname, or the null id |
| UserCache.UserCache.UsercacheKnownChannels | qcrouter/src/usercache.c:475-502 | prints the longest run of whole names that fits |
| UserCache.UserCache.UsercacheTagDead | qcrouter/src/usercache.c:813-823 | exactly the users of the net lose their flag |
| UserCache.UserCache.UsercacheTagAlive | qcrouter/src/usercache.c:828-837 | exactly that user gets it back |
| UserCache.UserCache.UsercacheDeadUsers | qcrouter/src/usercache.c:843-876 | the vector sized by the counting pass is filled to its end by the second pass, with the dead list in order |
| UserCache.UserCache.UsercacheEnum | qcrouter/src/usercache.c:708-721 | one call per user, in list order |
| UserCache.UserCache.UsercacheEnumExceptNet | qcrouter/src/usercache.c:726-743 | one call per user of another net, in list order |
| RouteTheory.WhereIsTheMap | qcrouter/src/routetbl.c:405-430 | the next hop is the first neighbour of that id if there is one, else the one connection that has it as a branch, else none |
| RouteTheory.SentOnce | qcrouter/src/routetbl.c:519-545 | a message that is no broadcast is sent exactly once, to the first neighbour that is the net it is for, else to the connection that has that net as a branch, and to nobody if no entry has it |
| RouteTheory.AllAreOffered | qcrouter/src/routetbl.c:474-514 | a new router is offered each neighbour followed by the nets behind it, entry by entry, and no other nets |
| RouteTheory.EveryRunIsConsistent | qcrouter/src/routetbl.c:264-397 | over any sequence of operations connections stay distinct and a net is a branch of at most one of them, once |
| RouteTheory.DropEachEffect | qcrouter/src/routetbl.c:206-225 | the loop over the copied vector empties that vector and touches nothing else |
| RouteTheory.DropConnEffect | qcrouter/src/routetbl.c:308-349 | exactly that connection leaves the table |
| RouteTheory.CutExactly | qcrouter/src/routetbl.c:83-126 | as written, memory sizes aside, removing a branch removes just that net if and only if the vector is empty or holds it |
| RouteTheory.LearnEffect | qcrouter/src/routetbl.c:354-380 | learning a list of nets adds those that are no branch anywhere, once each, in order of first arrival |
| RouteNotices.BroadcastOnce | qcrouter/src/routetbl.c:183-202 | a broadcast goes exactly once to each connection that neither is the source nor owns it, and to no other |
| RouteNotices.NoticeOnce | qcrouter/src/switch.c:146-161 | the same for the announcement that a net came or went, and no other net is announced with it |
| RouteNotices.AddConnTells | qcrouter/src/routetbl.c:264-303 | the announcement of a new neighbour, in table order, to all connections that neither are nor own a net of its id |
| RouteNotices.AddConnOnce | qcrouter/src/routetbl.c:264-303 | each of them is told exactly once; the owners, the new neighbour itself and everybody, for a known connection, are told nothing |
| RouteNotices.AddBranchOnce | qcrouter/src/routetbl.c:354-380 | a new branch is told exactly once to each connection but the one it came from and the net itself; a net that is a branch already is told to nobody |
| RouteNotices.DropBranchTells | qcrouter/src/routetbl.c:385-397 | the loss of a net, in the table or not, is told to all connections that neither are nor own it as the table was before |
| RouteNotices.DropBranchOnce | qcrouter/src/routetbl.c:385-397 | each of them exactly once, and no other loss |
| RouteNotices.LeavingIsTold | qcrouter/src/routetbl.c:83-126 | what leaves the vector is the net announced if and only if the vector is empty or holds it |
| RouteNotices.SilentLoss | qcrouter/src/routetbl.c:385-397 | otherwise the last net of the vector is lost and no connection is told of it |
| RouteNotices.DropConnTells | qcrouter/src/routetbl.c:206-225 | dropping a connection announces each of its branches in order and then its own net, each to all that neither are nor own it |
| RouteNotices.DropConnCounts | qcrouter/src/routetbl.c:308-349 | how often each connection is told of each net then: once for being a branch and once for being the connection itself, unless it is or owns the net |
| RouteNotices.DropConnExactly | qcrouter/src/routetbl.c:308-349 | so everybody concerned is told of each lost net exactly once if and only if the connection does not have its own id as a branch, or nobody is concerned by that id; the others never |
| RouteNotices.OwnIdAsBranch | qcrouter/src/routetbl.c:354-380 | a legal run that gives a connection its own id as a branch, which only looks among branches |
| RouteNotices.ToldTwiceExample | qcrouter/src/routetbl.c:308-349 | from there dropping it tells the other connection twice, though all ids are distinct |
| RouteTable.RouteTable.FindBranchNode | qcrouter/src/routetbl.c:162-181 | the first entry with that branch, or null |
| RouteTable.RouteTable.RoutetblWhere | qcrouter/src/routetbl.c:405-430 | the next hop of the model |
| RouteTable.RouteTable.RoutetblEnumRoot | qcrouter/src/routetbl.c:438-469 | the id of the connection and its branches in order, or nothing for an unknown one |
| RouteTable.RouteTable.RoutetblEnumAll | qcrouter/src/routetbl.c:474-514 | all neighbours, each followed by its branches; the vector filled has the size counted |
| RouteTable.RouteTable.DoNearBroadcast | qcrouter/src/routetbl.c:183-202 | the sends of the split-horizon rule, in table order, and no change of the table |
| RouteTable.RouteTable.RoutetblSend | qcrouter/src/routetbl.c:519-545 | one send to the next hop, or the broadcast, or none |
| RouteTable.RouteTable.RemoveBranch | qcrouter/src/routetbl.c:83-126 | the vector as the code leaves it |
| RouteTable.RouteTable.RemoveAllBranches | qcrouter/src/routetbl.c:206-225 | table and announcements of the model |
| RouteTable.RouteTable.RoutetblAdd | qcrouter/src/routetbl.c:264-303 | table and announcements of the model; a known connection changes nothing |
| RouteTable.RouteTable.RoutetblAddBranch | qcrouter/src/routetbl.c:354-380 | table and announcements of the model |
| RouteTable.RouteTable.RoutetblRemoveBranch | qcrouter/src/routetbl.c:385-397 | table and announcements of the model |
| RouteTable.RouteTable.RoutetblRemove | qcrouter/src/routetbl.c:308-349 | table and announcements of the model |
| RouterTree.BroadcastReachesEveryNetOnce | qcrouter/src/routetbl.c:183-202 | in a tree of routers with exact tables, whatever the order of delivery: no net receives a broadcast twice, the source never does, there are fewer deliveries than nets, and when no copy is under way every other net has received it exactly once |
| RouterTree.DeliveryIsPossible | qcrouter/src/routetbl.c:183-202 | a copy under way can always be delivered, so no schedule gets stuck |
| RouterTree.PlayedSound | qcrouter/src/routetbl.c:183-202 | at any moment each net other than the source has the broadcast or exactly one copy on its way will pass it |
| RouterPaths.SendTakesNext | qcrouter/src/routetbl.c:519-545 | on an exact tree a net sends a message for another net to the neighbour behind which that net lies, and to no other |
| RouterPaths.WayIsShortest | qcrouter/src/routetbl.c:405-430 | the way from neighbour to neighbour is a path along links, and none is shorter |
| RouterPaths.MessageTakesTheWay | qcrouter/src/switch.c:47-75 | a message for one net visits the nets of that way, one after the other and no others, and ends where it is for |
| RouterPaths.TripGoesOn | qcrouter/src/switch.c:47-75 | until then its one copy can always arrive |
| RouterGrowth.SingletonExact | qcrouter/src/routetbl.c:233-237 | a net on its own has an exact (empty) table |
| RouterGrowth.GrownExact | qcrouter/src/routetbl.c:264-380 | the tables of a tree with one more leaf, as the additions make them, are exact |
| RouterNews.FirstArrival | qcrouter/src/switch.c:47-161 | the first copy of the news of a leaf gives a net its table of the larger tree, and goes on twice: announced by the table and passed on by the switch |
| RouterNews.LaterArrival | qcrouter/src/switch.c:47-161 | a further copy changes nothing and goes on once |
| RouterNews.StepConserved | qcrouter/src/switch.c:47-161 | at every arrival: how often a net was told, the copies that will pass it, and the nets before it that have yet to hear add up to its distance from the join |
| RouterNews.DepthStep | qcrouter/src/routetbl.c:183-202 | that distance is 0 at the joined net and grows by one with each link away from it |
| RouterNews.AnnouncementMakesExact | qcrouter/src/switch.c:47-161 | when a leaf joins an exact tree, whatever the order of arrival: no net is told more often than its distance from the join; the copies die out; and then every net was told exactly that often and all tables are exact again |
| RouterNews.NewsCanGoOn | qcrouter/src/switch.c:47-75 | any copy under way can arrive next, so no schedule gets stuck |
| RouterCut.RestExact | qcrouter/src/routetbl.c:308-349 | when a link of an exact tree is cut, the tables of the remaining side, without the connection and without the nets beyond it, are exact |
| RouterCut.OnlyLink | qcrouter/src/routetbl.c:308-349 | the lost link is the only one between what is lost and what remains |
| RouterLoss.FirstIsDropConn | qcrouter/src/routetbl.c:308-349 | the spreading of the news of a loss starts with the table and, message by message, the sends of dropping the connection |
| RouterLoss.ArrivesSwitches | qcrouter/src/switch.c:47-75 | an arrival that is acted on has on table and links the effect of switching the message |
| RouterLoss.ArrivesTracked | qcrouter/src/switch.c:80-161 | at every moment whoever sends the news acted on it, and so did all routers between it and the start |
| RouterStorm.ArrivesBusy | qcrouter/src/switch.c:47-161 | every arrival anywhere leaves, on the link between the net that lost a connection and a neighbouring router, a message of the loss that its receiver will act on |
| RouterStorm.LossNeverRests | qcrouter/src/switch.c:47-161 | with a router left next to it the news of the loss never dies down, in any schedule |
| RouterStorm.LossEndsAlone | qcrouter/src/switch.c:47-161 | with none left each message ends with the local net it goes to, in as many arrivals as there were messages, and the table is the exact one of what remains |
| RouterStorm.LossEndsExactly | qcrouter/src/switch.c:47-161 | some schedule ends the news of a loss if and only if no neighbour left is a router |
| RouterStorm.RowLoss | qcrouter/src/switch.c:47-161 | a row of three nets, of which the middle one loses an end: all hypotheses hold, and the other end is a router |
| RouterDamage.NeverComesBack | qcrouter/src/routetbl.c:385-397 | a net that left a table does not come back while the news of losses spreads |
| RouterDamage.LosesAnother | qcrouter/src/routetbl.c:385-397 | if something lies behind a neighbouring router, two arrivals make the net that lost the connection forget another net that is still there, in every continuation |
| RouterDamage.TableSurvivesExactly | qcrouter/src/routetbl.c:385-397 | its table stays exact through every schedule if and only if no router left next to it has nets behind it |
| SwitchModel.ParseCacheInv | qcrouter/src/switch.c:80-144 | switching a message keeps the user cache consistent |
| SwitchModel.DisconnectEffect | qcrouter/src/net.c:136-155 | dropping a connection removes exactly the users of its net and of its branches; the others keep order, mode, nickname and channels; counts are exact, topics of channels in use kept; the entry leaves the table |
| SwitchModel.ExchangeEffect | qcrouter/src/net.c:167-211 | a new connection ends up with its id and the announced nets that were no branch anywhere, in order of first arrival |
| SwitchModel.DisconnectTakes | qcrouter/src/net.c:136-155 | said of the entry: exactly the users go whose net is the connection's own id or one of its branches |
| SwitchModel.ListIsRead | qcrouter/src/net.c:190-211 | a peer's list is good exactly if it is net after net and then the end mark; what came before it broke off has been taken in |
| SwitchEffect.JoinEffect | qcrouter/src/switch.c:129-131 | after a join the source is on the channel, by its clipped name, and on all its others; nobody else changes; topics stay, and a channel nobody was on starts without one |
| SwitchEffect.LeaveEffect | qcrouter/src/switch.c:132-134 | after a leave the source is off the channel and on all its others, in order; nobody else changes; a channel stays, with its topic, exactly while somebody is on it |
| SwitchEffect.TopicEffect | qcrouter/src/switch.c:135-137 | a topic change sets the topic of that channel, cut to its field, and of no other, and no user changes |
| SwitchEffect.LostEffect | qcrouter/src/switch.c:123-128 | after a loss nobody has that id, the others are as they were and in order, and channels stay exactly while one of them is on them |
| SwitchEffect.NetLostEffect | qcrouter/src/switch.c:97-104 | after the loss of a net nobody of it is left, and the others are as they were, in order |
| SwitchEffect.NickEffect | qcrouter/src/switch.c:105-109 | a change of nickname sets the nickname of exactly that user and nothing else |
| SwitchEffect.ModeEffect | qcrouter/src/switch.c:110-114 | a change of mode sets the mode of exactly that user and nothing else |
| SwitchEffect.NewcomerEffect | qcrouter/src/switch.c:115-122 | a user announced for the first time comes last, alive, with the announced mode, nickname and distinct channels; all others are as they were |
| SwitchEffect.AnnouncedAgain | qcrouter/src/switch.c:115-122 | a user announced again keeps place and flag and takes mode, nickname and channels from the announcement; a topic survives exactly if somebody else is on the channel |
| SwitchEffect.OthersLeaveTheCache | qcrouter/src/switch.c:80-144 | no other message touches users or channels |
| Router.Router.RemoveUsersFrom | qcrouter/src/net.c:136-155 | the users behind a connection are removed net by net, as the table lists them |
| Router.Router.CutOff | qcrouter/src/net.c:426-436 | users first, then the entry: cache, table and announcements of the model |
| Router.Router.NetDisconnect | qcrouter/src/net.c:426-442 | and the connection leaves the list, the rest of which keeps its order |
| Router.Router.LeAdd | qcrouter/src/net.c:114-131 | the connection is appended to the list |
| Router.Router.LeRemove | qcrouter/src/net.c:86-109 | its first occurrence leaves the list, which stays well linked and keeps the order of the rest |
| Router.Router.ExchangeRoutetbl | qcrouter/src/net.c:167-211 | offers all known nets, enters the connection and learns what arrives until the peer ends its list |
| Router.Router.ParseMsg | qcrouter/src/switch.c:80-144 | cache, table and announcements of the model for every type of message |
| Router.Router.SwitchMsg | qcrouter/src/switch.c:47-75 | parses first and then passes on what is neither for this net nor empty |
| Switch.IdCache.IsKnown | qcrouter/src/msg.c:146-157 | the search of the whole window finds an id exactly if it is the one remembered or the blank one |
| Switch.IdCache.Register | qcrouter/src/msg.c:159-169 | the id is remembered, in place of the one before |
| Switch.OnlyRepeatsAreHeldBack | qcrouter/src/msg.c:146-169 | over any run of messages one is held back exactly if its id is the blank one or that of the message before it, blank ones aside |
| Switch.Switch.SwitchMsg | qcrouter/src/switch.c:47-75 | a known message changes nothing; any other is registered and switched |
| Router.Router.HandleUserEnumRequest | qcrouter/src/switch.c:166-194 | one USER_NEW per cached user, to the net that asked |
| Enumeration.EveryUserIsTold | qcrouter/src/switch.c:166-194 | an enumeration request is answered over the connection it came from, once per cached user in list order, with id, mode, nickname and channels of that user |
| Enumeration.CachesAreCopied | qcrouter/src/switch.c:115-194 | a router with an empty cache that switches the answers in order knows the same users afterwards, in the same order, with modes, nicknames and channels, all alive |
| RouteTable.RouteTable.BroadcastRouteChange | qcrouter/src/switch.c:146-161 | the announcement that a net came or went, sent by the rule of broadcasts from that net |
| MsgQueue.MsgQueue.Push | qcrouter/src/msg.c:222-246 | the linked cells refine a queue: the message comes last |
| MsgQueue.MsgQueue.Pop | qcrouter/src/msg.c:252-281 | the oldest message leaves; an empty queue gives none |
| MsgQueue.MsgQueue.Empty | qcrouter/src/msg.c:286-293 | true exactly for the empty queue |
| LocalTheory.TranslatedNames | qcrouter/src/localconn.c:579-603 | a translated message names users of the cache, and is no USER_NEW, USER_LOST or route change |
| LocalTheory.NewUserKnown | qcrouter/src/localconn.c:455-504 | when the USER_NEW has been switched, the nickname belongs to the announced user |
| NewUsers.NewUsersAreNumbered | qcrouter/src/localconn.c:455-504 | over any history new users get the 16-bit numbers that follow the last one given, in the order they are announced, so that up to 65536 of them no two get the same id |
| NewUsers.NewIdsAreFree | qcrouter/src/localconn.c:455-504 | if the other nets bring no users of this one and no cached user of it has a number still to be given, every id announced is free when it is announced |
| NewUsers.OnlyStrangersAreAnnounced | qcrouter/src/localconn.c:455-504 | exactly datagrams of strangers begin with an announcement: not those of the router, of somebody known, of one who leaves or renames, or without a source |
| NewUsers.StrangersAreAnnounced | qcrouter/src/localconn.c:455-504 | the datagram of an unknown source first announces the user to all: next number, mode of the datagram or the normal one, main channel; if the id is free, switching that puts the new entry behind all others, which stay as they are |
| LocalTheory.NamesSwitchable | qcrouter/src/switch.c:80-144 | such a message meets the assertions of the cache operations |
| LocalTheory.DrainTheorem | qcrouter/src/qcrouter.c:231-249 | the loop of one event ends with nothing pending, has read one datagram if nothing was waiting and none otherwise, and all it delivered names users the cache held at that moment |
| LocalTheory.DrainOrder | qcrouter/src/qcrouter.c:231-249 | what an event delivers, in order: the waiting queue oldest first; else a translation followed by the loss it delays; or the USER_NEW and then the translation with the cache it leaves |
| LocalTheory.EveryHistoryIsSafe | qcrouter/src/localconn.c:708-797 | over any run of arrivals, polls, refresh timeouts and changes by other nets nothing stays postponed between events, everything delivered names cached users, and no more datagrams are read than there are events |
| Refreshing.TimeoutGivesUp | qcrouter/src/localconn.c:622-671 | a timeout queues one loss for each user of the net whose flag was down before it, in list order, and nothing else; then it takes down the flags of the net and of no other |
| Refreshing.OnlyTheSilentAreGivenUp | qcrouter/src/localconn.c:622-671 | from one timeout to the next, over any history: given up are exactly the users of the net still cached that were neither announced nor acknowledged in between |
| LocalEffect.OwnExactly | qcrouter/src/localconn.c:708-797 | the router's own datagrams are those under its nickname or under that of a cached user of another net |
| LocalEffect.OwnAreDropped | qcrouter/src/localconn.c:708-797 | they are dropped, without message, answer or change |
| LocalEffect.AcknowledgementRecords | qcrouter/src/localconn.c:232-266 | an acknowledgement to the router marks its sender alive with the mode it tells, and changes nothing else |
| LocalEffect.OthersRecordNothing | qcrouter/src/localconn.c:579-603 | no other datagram changes the cache before its message is switched |
| LocalEffect.LeavingMainIsLeaving | qcrouter/src/localconn.c:304-358 | somebody who leaves Main, in whatever case, is told to leave and then to be lost, and is gone afterwards; leaving another channel is just told, and the user stays |
| LocalEffect.OnlyTheHeededLeave | qcrouter/src/switch.c:64-74 | a datagram that is not to be passed on leaves no connection of the router; one that is goes out by its table |
| Answers.RefreshIsAnswered | qcrouter/src/localconn.c:190-230 | a refresh request is answered once per cached user of another net, in list order, in that user's name and mode, to whoever asked |
| Answers.ChannelsAreAnswered | qcrouter/src/localconn.c:161-182 | a request for channels is answered with the names that fit and a final mark, to whoever asked |
| Answers.InfoIsAnswered | qcrouter/src/localconn.c:360-394 | a request about somebody is answered exactly if a cached user of another net bears the name, with that user's id and channels |
| Answers.DumpReads | qcrouter/src/common.c:211-236 | the text of an id gives its two numbers back |
| LocalModel.TaggedKnown | qcrouter/src/localconn.c:232-266 | tagging a user alive neither adds nor removes users |
| Translation.PassedOnExactly | qcrouter/src/localconn.c:232-603 | which datagrams are passed on, by entries and fields: private ones between cached users whose receiver is on another net, lines, renamings and modes of cached users, another topic for a listed channel, an acknowledgement to the router that tells another mode; and no others |
| Translation.PairSays | qcrouter/src/localconn.c:268-453 | a private datagram becomes the message of its kind from the bearer of the one nickname to the bearer of the other, with text and mode |
| Translation.LineSays | qcrouter/src/localconn.c:304-358 | a line becomes the message of its kind to all from the bearer of the nickname, with channel, text and mode |
| Translation.ChangeSays | qcrouter/src/localconn.c:232-570 | a change becomes a message to all from the net that names the bearer, with both names, or with topic and channel, or with the mode |
| Translation.ModesByNumber | qcrouter/src/localconn.c:118-158 | the numbers of the modes on a local net, the watch flag aside |
| LocalConn.LocalConn.HandleRefreshAck | qcrouter/src/localconn.c:232-266 | marks the sender alive, records and announces a changed mode |
| LocalConn.LocalConn.HandleMessage | qcrouter/src/localconn.c:268-302 | the private message for a user of another net, or nothing |
| LocalConn.LocalConn.HandleChannel | qcrouter/src/localconn.c:304-358 | text, join and leave; leaving Main delays the loss of the user |
| LocalConn.LocalConn.HandleInfoRequest | qcrouter/src/localconn.c:360-394 | answers for users of other nets |
| LocalConn.LocalConn.HandleBeep | qcrouter/src/localconn.c:396-416 | beeps to users of other nets |
| LocalConn.LocalConn.HandlePrivate | qcrouter/src/localconn.c:418-453 | private talk with users of other nets |
| LocalConn.LocalConn.HandleTopicChange | qcrouter/src/localconn.c:506-526 | announces a topic unless it is the same or the channel is unknown |
| LocalConn.LocalConn.HandleUserChange | qcrouter/src/localconn.c:528-570 | changes of mode and of nickname |
| LocalConn.LocalConn.HandleChanlistReq | qcrouter/src/localconn.c:161-182 | answers with the known channels and a final mark |
| LocalConn.LocalConn.HandleRefreshReq | qcrouter/src/localconn.c:190-230 | answers for every user of another net |
| LocalConn.LocalConn.HandleNewUser | qcrouter/src/localconn.c:455-504 | an unknown source is announced with the next number, and the datagram postponed |
| LocalConn.LocalConn.SwitchQmsg | qcrouter/src/localconn.c:579-603 | translation, delayed messages, replies and cache of the model for every kind |
| LocalConn.LocalConn.LocalRecv | qcrouter/src/localconn.c:708-797 | delayed messages first, then the postponed datagram, then the link |
| LocalConn.LocalConn.ProcessNetEvent | qcrouter/src/qcrouter.c:231-249 | the loop over both classes does what the model of the loop says: queue, cache, and what is sent to the other nets |
| LocalConn.LocalConn.HandleRefreshTimeout | qcrouter/src/localconn.c:622-671 | the silent users are given up, everybody is asked again and tagged |
| WireFormat.LayoutRoundTrip | qcproto/p_qchat.c:38-44 | for any table of fields, reading undoes writing, whatever lies behind the message |
| WireFormat.MakeQchatSucceeds | qcproto/p_qchat.c:46-232 | exactly the messages with all fields of their kind, and among topics those of Main, can be written |
| WireFormat.TagsDecide | qcproto/p_qchat.c:254-440 | a datagram announces a kind exactly if it starts with the tag of that kind |
| WireFormat.FormatFits | qcproto/p_qchat.c:46-440 | the table of each kind has the fields of that kind and sets the mode as it should |
| WireFormat.QchatRoundTrip | qcproto/p_qchat.c:46-440 | for every kind and all strings without NUL, reading what was written gives the normalised message: its fields and no others, topic of Main, plain modes, watching kept with a refresh acknowledgement |
| WireBytes.QchatBytes | qcproto/p_qchat.c:46-232 | every kind of datagram, byte by byte |
| WireFormat.AckModeExactly | qcproto/supp.c:36-56 | the mode of a refresh acknowledgement survives if and only if it is plain, or normal and watching |
| WireFormat.ParseIsWellFormed | qcproto/p_qchat.c:254-440 | a read message has exactly the fields of its kind, without NUL in them |
| WireFormat.ReadWriteRead | qcproto/p_qchat.c:46-440 | what was read can be written, and reads as the same message if and only if it is no acknowledgement that watches in another mode than normal |
| WireFormat.HalfReadExactly | qcproto/p_qchat.c:250-252 | a failed read leaves a cleaned message if and only if it did not fail at a missing `#`; then kind and perhaps source stay |
| WireFormat.HandedOverExactly | qcrouter/src/localconn.c:743-756 | a router that goes on after a failed read has a message with the fields of its kind in hand if and only if the read did not fail at a missing `#` |
| WireFormat.ModeBlind | qcproto/supp.c:58-68 | the mode left over from the message before has no influence on anything but the mode |
| QchatCodec.Writer.AddStr | qcproto/p_qchat.c:39-43 | the string and its NUL go behind the length, which moves; a NULL pointer gives up |
| QchatCodec.Writer.AddChan | qcproto/p_qchat.c:44-44 | the mark, then the string |
| QchatCodec.MakeQchatMsg | qcproto/p_qchat.c:46-232 | the buffer that is filled, and the refusals, are those of the tables |
| QchatCodec.Reader.GatherStr | qcproto/supp.c:69-100 | the loop returns the text up to the first NUL and moves behind it, or finds none and stays |
| QchatCodec.Reader.GetMode | qcproto/p_qchat.c:234-240 | one digit, or a cleaned message |
| QchatCodec.Reader.GetChan | qcproto/p_qchat.c:250-252 | a mark and a string; a missing mark is not cleaned up |
| QchatCodec.ParseQchatMsg | qcproto/p_qchat.c:254-440 | the moving pointer reads what the tables say, in success and in every failure |
| VypressModel.VypressRoundTrip | qcproto/p_vypress.c:46-205 | with an unseen signature every kind comes through, whatever byte lies behind the packet: topics with their channel, the rest as by QuickChat |
| WireBytes.VypressBytes | qcproto/p_vypress.c:46-112 | the header and the three own formats, byte by byte |
| VypressModel.VypressIsWellFormed | qcproto/p_vypress.c:136-205 | an accepted packet gives a message with exactly the fields of its kind, and one of no kind exactly if its signature was remembered |
| VypressModel.OverreadExactly | qcproto/p_vypress.c:164-192 | the byte the uncounted tag lets in changes what is read if and only if it is a NUL and the packet lacks just its last one |
| VypressModel.OverreadExample | qcproto/p_vypress.c:164-171 | a topic that lost its NUL, accepted or refused by the byte behind it |
| VypressModel.LeaveIgnoresMode | qcproto/p_vypress.c:188-199 | whether a packet flushes does not depend on the mode left over |
| VypressModel.LeavingMainFlushes | qcproto/p_vypress.c:188-199 | of the packets that can be written exactly those flush in which somebody leaves Main |
| VypressModel.WindowIsRecent | qcproto/supp.c:118-216 | over any run of packets what is remembered is exactly the newest 32, or fewer, of the signatures registered since the last flush, newest first, without repetition |
| VypressModel.DuplicatesExactly | qcproto/p_vypress.c:145-202 | after any run a packet that is too short is refused, one with a remembered signature yields nothing, and any other gets exactly what the parser makes of it |
| VypressModel.RepeatIsDropped | qcproto/supp.c:118-189 | a packet that was new is recognised again behind at most 31 others, if none of them flushes |
| Vypress.DupList.KnownDupEntry | qcproto/supp.c:121-133 | the loop finds a signature exactly if it is in the list |
| Vypress.DupList.RemoveLastEntry | qcproto/supp.c:135-153 | the oldest signature goes |
| Vypress.DupList.InsertDupEntry | qcproto/supp.c:155-189 | the new signature comes first, and of 32 the oldest goes; the list stays well linked |
| Vypress.DupList.CleanupDup | qcproto/supp.c:201-216 | the list is empty again |
| Vypress.GenerateSignature | qcproto/supp.c:191-199 | an X and nine small letters |
| Vypress.MakeVypressMsg | qcproto/p_vypress.c:46-112 | header and body of the model in the buffer that is returned |
| Vypress.ParseVypressMsg | qcproto/p_vypress.c:136-205 | result, message and remembered signatures of the model, duplicates and flush included |
| RouterWire.MsgRoundTrip | qcrouter/src/routerconn.c:81-228 | decoding an encoded message gives all transmitted fields back, whatever follows |
| RouterWire.DecodedInRange | qcrouter/src/routerconn.c:156-228 | whatever arrives, a message that was decoded has its fields in range, and can be sent on |
| RouterWire.EncodedLength | qcrouter/src/routerconn.c:93-109 | the length of an encoded message |
| RouterWire.EncodedFits | qcrouter/src/msg.h:148-166 | with longs of 4 or of 8 bytes it never exceeds the size of the structure it is built in |
| RouterWire.StreamRoundTrip | qcrouter/src/routerconn.c:81-228 | a stream of frames decodes to the same messages in the same order, up to what follows |
| RouterWire.WholeStream | qcrouter/src/routerconn.c:81-228 | and with nothing behind them all is read and the link is sound |
| RouterWire.NetMsgRoundTrip | qcrouter/src/msg.h:35-166 | types and modes survive as numbers |
| WireBytes.RouterBytes | qcrouter/src/routerconn.c:81-123 | length, id and fields of a message between routers, byte by byte and low byte first |
| WireBytes.LongBytes | qcrouter/src/routerconn.c:44-66 | a long goes out low byte first, in four bytes or in eight |
| WireBytes.NumbersAreFixed | qcrouter/src/msg.h:35-145 | the numbers of types and modes |
| RouterConn.Packer.Put | qcrouter/src/routerconn.c:44-66 | the bytes of the next value go where the pointer stands |
| RouterConn.Unpacker.RdStr | qcrouter/src/routerconn.c:146-154 | counted text, with the two ways to fail |
| RouterConn.PackAll | qcrouter/src/routerconn.c:95-107 | the fields in the order they are written fill the buffer with the encoding |
| RouterConn.Unpack | qcrouter/src/routerconn.c:203-228 | the fields in the order they are read give the decoded message, or its failure |
| RouterConn.RouterLink.Send | qcrouter/src/routerconn.c:81-123 | one frame on the stream, or a damaged link |
| RouterConn.RouterLink.Recv | qcrouter/src/routerconn.c:156-228 | the next frame leaves the stream; one that is too long damages the link |
| RouterConn.RouterLink.RecvAll | qcrouter/src/routerconn.c:156-228 | a run of receptions yields what the stream holds |
| Crossing.LocalSend | qcrouter/src/localconn.c:803-927 | the datagram sent for each type of message, if one is |
| Crossing.AskedOrSilent | qcrouter/src/localconn.c:803-927 | an enumeration request asks the local net in the router's name; nothing is sent for messages about nets, links and users coming and going |
| Crossing.TranslationRoundTrip | qcrouter/src/localconn.c:268-927 | every datagram that is to be passed on, as `Translation.Heeded` says of entries and fields, is translated back, at a router that knows the same users, to the same datagram with fields cut to size |
| Crossing.SwitchingAgrees | qcrouter/src/switch.c:80-144 | switching leaves the nicknames a message needs, but for a renaming |
| Crossing.TranslatedInRange | qcrouter/src/localconn.c:268-570 | what is translated fits the fields of the router protocol |
| Crossing.WireToWire | qcrouter/src/localconn.c:708-927 | bytes read on one net, translated, carried in a frame, translated back, written and read on another net give the same line of chat |
| Crossing.AnnIsHeard | qcrouter/src/localconn.c:304-358 | a line of text from a known user passes unchanged |
| Crossing.ShortMessagesSurvive | qcrouter/src/localconn.c:268-570 | nothing of it is lost if names and text fit their fields |
| PortScan.EveryProbeOnce | vqcc-gtk/src/gui_netselect_dlg.c:154-226 | every port of the range is probed exactly once in each of the three ways, but for the network the client is on, and nothing else is |
| PortScan.LastChunk | vqcc-gtk/src/gui_netselect_dlg.c:351-362 | the number of steps is positive, every step begins inside the range, and only the last chunk reaches its end |
| PortScan.StepsInOrder | vqcc-gtk/src/gui_netselect_dlg.c:154-226 | a step probes at most five ports, in order and all one way; of the three steps for the same ports the first is for QuickChat, the second for Vypress, the third for Vypress by multicast |
| PortScan.PortLoopEndsExactly | vqcc-gtk/src/gui_netselect_dlg.c:202-202 | with its counter of 16 bits the loop over a chunk ends if and only if the chunk does not end at port 65535 |
| PortScan.NetselectDlg.AdvanceDetectStep | vqcc-gtk/src/gui_netselect_dlg.c:154-184 | one step further, to the next way or the next chunk, exactly if there is one |
| PortScan.NetselectDlg.InitDetectLinks | vqcc-gtk/src/gui_netselect_dlg.c:190-229 | sends the probes of the step, with every offset below 5 |
| PortScan.NetselectDlg.StartDetection | vqcc-gtk/src/gui_netselect_dlg.c:350-365 | the first chunk and the number of steps |
| PortScan.NetselectDlg.Detect | vqcc-gtk/src/gui_netselect_dlg.c:262-369 | a whole detection ends at the last step and has sent each wanted probe exactly once |
| ClientChanlist.DecodePrintedExactly | vqcc-gtk/src/net.c:123-164 | for every list of names: printing and decoding gives it back if and only if no name holds the mark, is empty or is longer than 64 |
| ClientChanlist.DecodePrinted | vqcc-gtk/src/net.c:123-164 | names without the mark come back in order, but for those that are empty or too long |
| ClientChanlist.KnownNamesLongest | qcrouter/src/usercache.c:475-502 | the router mentions the longest run of whole names from the front of its list that fits |
| ClientChanlist.ReplyDecodes | qcrouter/src/localconn.c:161-182 | a client decodes the router's reply to those names if and only if none of them is empty |
| ClientChanlist.SessMakeChannelList | vqcc-gtk/src/sess.c:786-803 | the loop prints the names of the channel pages |
| ClientChanlist.DecodeChanlist | vqcc-gtk/src/net.c:123-164 | the pointer that jumps from mark to mark ends, and finds the names of the specification |
| IdleMode.EveryRunKeeps | vqcc-gtk/src/idle.c:53-126 | over any interleaving of checks, switches and picks a client is idle exactly if a mode is put aside, and that is the mode held when the idle period began |
| IdleMode.ReturnRestores | vqcc-gtk/src/main.c:262-290 | coming back puts that mode in force, whatever was picked meanwhile |
| IdleMode.BecomingIdleExactly | vqcc-gtk/src/main.c:262-290 | becoming idle puts a mode aside if and only if the mode is not the null mode |
| IdleMode.LimitsDecide | vqcc-gtk/src/idle.c:53-126 | which of the two limits decides what a check finds, and that offline lasts until the user is back below the limit for away |
| IdleMode.NothingIsChecked | vqcc-gtk/src/idle.c:53-63 | a check does nothing exactly without the timer or for an invisible user |
| IdleMode.IdleShows | vqcc-gtk/src/main.c:262-290 | as long as nothing is picked an idle client shows away or offline, as the state and the mode before demand |
| IdleMode.InvisibleIsLeftAlone | vqcc-gtk/src/idle.c:58-60 | while the user is invisible no run of checks changes anything, and the mode put aside comes back with the first check made in another mode |
| IdleMode.VqccClient.MainEventCb | vqcc-gtk/src/main.c:262-290 | the three events on the mode put aside and the mode in force |
| IdleMode.VqccClient.IdleCheckCb | vqcc-gtk/src/idle.c:53-126 | the transitions of the check |
| IdleMode.VqccClient.IdlePrefsIdleEnableChanged | vqcc-gtk/src/idle.c:156-180 | switching off ends an idle period |
| IdleMode.VqccClient.Live | vqcc-gtk/src/idle.c:53-180 | any run of steps on the variables is the run of the model |

## Left out

- UserCache.UserCache.RemoveUeChannel: models the intended early return for a channel the user is not on; the code as written is `CacheRuns.DropChanAsWritten`.
- UserCache.UserCache.SetUeChannels: asks for a non-empty text; for the empty one the source scans behind the terminator.
- Vypress.MakeVypressMsg: reports a refused QuickChat fallback, where the source goes on with a NULL pointer and undefined content.
- RouterConn.RouterLink.Recv: waits for a whole frame; the source's handling of short reads, which drops what came first, is not modelled.
- PortScan.NetselectDlg.Detect: asks for a range that ends below 65535, beyond which the loop does not end.
- LocalConn.LocalConn.LocalRecv: asks for datagrams with the fields of their kind, which `WireFormat.HandedOverExactly` shows to be all but those with a missing `#`; those make the source copy from a NULL pointer.
- LocalConn.LocalConn.ProcessNetEvent: assumes that the receive does not fail; a link failure ends in a NULL dereference in the source.
- Router.Router.SwitchMsg: is the switch behind the window of message ids, which `Switch.Switch.SwitchMsg` puts in front; `LocalConn` calls it with ids that are new.
- Router.Router.ExchangeRoutetbl: the null net is not offered, since its broadcast would fail an assertion; a failing link is a missing message.
- RouterTree.BroadcastReachesEveryNetOnce: covers trees, in which tables can be exact; in a graph with a cycle they cannot.
- NewUsers.NewIdsAreFree: asks that the other nets bring no users of this one, whose ids only this router gives.
- Enumeration.CachesAreCopied: is about users on some channel whose list fits its field and has no mark in a name; topics are not exchanged.
- RouterPaths.MessageTakesTheWay: is about trees with exact tables; a message to a net no table has is dropped, as `RouteTheory.SentOnce` says.
- RouterNews.AnnouncementMakesExact: one leaf joins at a time; the joining of two larger trees, and joins and losses that overlap, are not covered. Each message is taken to have an id of its own, and since copies of it move outward only, the window of ids holds none of them back.
- RouterStorm.LossNeverRests: fresh ids, random numbers in the source, are taken to differ from those under way or remembered.
- RouterLoss.ArrivesSwitches: is about tables and links; the users of lost nets, which each arrival removes from the cache, are in `Router.Router.SwitchMsg`.
- RouterDamage.TableSurvivesExactly: is about the table of the net that lost the connection, not about those of the others.
- CacheTheory.SetOwnList: is about users on some channel; one on none prints the empty text.
- Crossing.WireToWire: is about QuickChat nets; for Vypress nets the two translations and the round trip of `VypressModel` hold separately.
- Crossing.LocalSend: the end mark and the handshake, which are queued and not sent, are not part of it.
- Sockets (with the cut of a datagram of 512 bytes), polling, multicast, hosting, the plugin connection and the spy tool: calls into the system.
- Dialogs, tray, sessions, logging, configuration and preference files: user interface and plain storage.
- Character sets and collation: names are compared character by character, and the case of ASCII letters is folded where the source folds case.
- Memory: failing allocations, growth by 16 entries and the sizes reallocated; fields are taken to be large enough, and strings copied with strncpy are cut to their field.
- Timers: a refresh timeout is an event that can happen at any time.
- The message ids in `Messages`: left to the codec, which transmits them.
- The copy of the protocol library inside the client, whose refresh acknowledgement differs.
- The local mode of a channel join is lost on its way back onto a local net, as in the source.
