/**
 * The question source: a fixed, curated bank of seven puzzles (two Easy,
 * three Medium, two Hard) and the rule that picks the next one for a
 * difficulty, preferring the first question whose title has not been seen.
 */
module QuestionService {
  import opened Types
  import Template

  const TwoSum: Question := Question(
    title := "Two Sum",
    difficulty := Easy,
    topic := "Arrays",
    description := "Given an array of integers `nums` and an integer `target`, return indices of the two numbers such that they add up to `target`.\n\nYou may assume that each input would have exactly one solution, and you may not use the same element twice.",
    codeTemplate := "function twoSum(nums: number[], target: number): number[] {\n  const map = new Map<number, number>();\n\n  for (let i = 0; i < nums.length; i++) {\n    const complement = {{SLOT_1}};\n\n    if (map.has(complement)) {\n      return [map.get(complement)!, i];\n    }\n\n    map.set({{SLOT_2}}, i);\n  }\n\n  return [];\n}",
    slots := [
      Slot("{{SLOT_1}}", [
        Option("opt1_1", "target - nums[i]", true),
        Option("opt1_2", "nums[i] - target", false),
        Option("opt1_3", "target + nums[i]", false)
      ]),
      Slot("{{SLOT_2}}", [
        Option("opt2_1", "nums[i]", true),
        Option("opt2_2", "complement", false),
        Option("opt2_3", "i", false)
      ])
    ],
    explanation := "### Approach\nWe use a Hash Map to store the values we've seen so far and their indices. As we iterate through the array, for each number `x`, we calculate its `complement` (`target - x`). If the complement exists in the map, we found our pair.\n\n### Time Complexity\n**O(n)** because we traverse the list containing `n` elements only once. Each look up in the table costs only O(1) time.\n\n### Space Complexity\n**O(n)**. The extra space required depends on the number of items stored in the hash table, which stores at most `n` elements.")

  const ValidPalindrome: Question := Question(
    title := "Valid Palindrome",
    difficulty := Easy,
    topic := "Strings",
    description := "A phrase is a palindrome if, after converting all uppercase letters into lowercase letters and removing all non-alphanumeric characters, it reads the same forward and backward.",
    codeTemplate := "function isPalindrome(s: string): boolean {\n  // Clean the string: remove non-alphanumeric, convert to lower\n  const clean = s.replace(/[^a-zA-Z0-9]/g, '').toLowerCase();\n  \n  let left = 0;\n  let right = {{SLOT_1}};\n\n  while (left < right) {\n    if (clean[left] !== clean[right]) {\n      return {{SLOT_2}};\n    }\n    left++;\n    right--;\n  }\n  \n  return true;\n}",
    slots := [
      Slot("{{SLOT_1}}", [
        Option("p1_1", "clean.length - 1", true),
        Option("p1_2", "clean.length", false),
        Option("p1_3", "s.length", false)
      ]),
      Slot("{{SLOT_2}}", [
        Option("p2_1", "false", true),
        Option("p2_2", "true", false),
        Option("p2_3", "break", false)
      ])
    ],
    explanation := "### Approach\nWe use the **Two Pointer** technique. One pointer starts at the beginning of the cleaned string, and the other at the end. We compare characters and move inwards until the pointers meet.\n\n### Time Complexity\n**O(n)**, where n is the length of the string. We traverse the string once.\n\n### Space Complexity\n**O(n)** to store the cleaned string (or O(1) if we process in-place without regex).")

  const MaximumSubarray: Question := Question(
    title := "Maximum Subarray",
    difficulty := Medium,
    topic := "Arrays",
    description := "Given an integer array `nums`, find the contiguous subarray (containing at least one number) which has the largest sum and return its sum.",
    codeTemplate := "function maxSubArray(nums: number[]): number {\n  let currentSum = nums[0];\n  let maxSum = nums[0];\n\n  for (let i = 1; i < nums.length; i++) {\n    // Kadane's Algorithm logic\n    currentSum = Math.max({{SLOT_1}}, currentSum + nums[i]);\n    maxSum = Math.max({{SLOT_2}}, currentSum);\n  }\n\n  return maxSum;\n}",
    slots := [
      Slot("{{SLOT_1}}", [
        Option("m1_1", "nums[i]", true),
        Option("m1_2", "0", false),
        Option("m1_3", "maxSum", false)
      ]),
      Slot("{{SLOT_2}}", [
        Option("m2_1", "maxSum", true),
        Option("m2_2", "nums[i]", false),
        Option("m2_3", "currentSum + nums[i]", false)
      ])
    ],
    explanation := "### Approach\nThis problem is solved using **Kadane's Algorithm**. We iterate through the array, maintaining a `currentSum`. At each position, we decide whether to start a new subarray at the current element (`nums[i]`) or extend the existing subarray (`currentSum + nums[i]`).\n\n### Time Complexity\n**O(n)**. We pass through the array once.\n\n### Space Complexity\n**O(1)**. We only use two variables (`currentSum` and `maxSum`).")

  const ContainerWithMostWater: Question := Question(
    title := "Container With Most Water",
    difficulty := Medium,
    topic := "Two Pointers",
    description := "You are given an integer array `height` of length n. There are n vertical lines. Find two lines that together with the x-axis form a container, such that the container contains the most water.",
    codeTemplate := "function maxArea(height: number[]): number {\n  let left = 0;\n  let right = height.length - 1;\n  let maxWater = 0;\n\n  while (left < right) {\n    const width = right - left;\n    const h = Math.min(height[left], height[right]);\n    maxWater = Math.max(maxWater, {{SLOT_1}});\n\n    if (height[left] < height[right]) {\n      {{SLOT_2}};\n    } else {\n      right--;\n    }\n  }\n  return maxWater;\n}",
    slots := [
      Slot("{{SLOT_1}}", [
        Option("cw_1", "width * h", true),
        Option("cw_2", "width * height[left]", false),
        Option("cw_3", "width + h", false)
      ]),
      Slot("{{SLOT_2}}", [
        Option("cw2_1", "left++", true),
        Option("cw2_2", "left--", false),
        Option("cw2_3", "right++", false)
      ])
    ],
    explanation := "### Approach\nWe use the **Two Pointer** approach. We start with the widest container (start and end). At every step, we calculate the area and update max. To potentially find a larger area, we must move the pointer pointing to the shorter line inwards, as the area is limited by the shorter height.\n\n### Time Complexity\n**O(n)**. Each element is visited once.\n\n### Space Complexity\n**O(1)**.")

  const BinaryTreeLevelOrderTraversal: Question := Question(
    title := "Binary Tree Level Order Traversal",
    difficulty := Medium,
    topic := "Trees",
    description := "Given the root of a binary tree, return the level order traversal of its nodes' values. (i.e., from left to right, level by level).",
    codeTemplate := "function levelOrder(root: TreeNode | null): number[][] {\n  if (!root) return [];\n  const result: number[][] = [];\n  const queue: TreeNode[] = [root];\n\n  while (queue.length > 0) {\n    const levelSize = {{SLOT_1}};\n    const currentLevel: number[] = [];\n\n    for (let i = 0; i < levelSize; i++) {\n      const node = queue.shift()!;\n      currentLevel.push(node.val);\n      if (node.left) queue.push(node.left);\n      if (node.right) {{SLOT_2}};\n    }\n    result.push(currentLevel);\n  }\n  return result;\n}",
    slots := [
      Slot("{{SLOT_1}}", [
        Option("bt_1", "queue.length", true),
        Option("bt_2", "result.length", false),
        Option("bt_3", "1", false)
      ]),
      Slot("{{SLOT_2}}", [
        Option("bt2_1", "queue.push(node.right)", true),
        Option("bt2_2", "result.push(node.right)", false),
        Option("bt2_3", "currentLevel.push(node.right.val)", false)
      ])
    ],
    explanation := "### Approach\nWe use **Breadth-First Search (BFS)** with a Queue. The key is to process nodes level by level. We capture the `queue.length` at the start of the loop to determine how many nodes are in the current level, process them, and add their children to the back of the queue.\n\n### Time Complexity\n**O(n)**. Each node is processed exactly once.\n\n### Space Complexity\n**O(n)** for the queue, which stores at most one level of nodes (max width of the tree).")

  const TrappingRainWater: Question := Question(
    title := "Trapping Rain Water",
    difficulty := Hard,
    topic := "Dynamic Programming",
    description := "Given `n` non-negative integers representing an elevation map where the width of each bar is 1, compute how much water it can trap after raining.",
    codeTemplate := "function trap(height: number[]): number {\n  let left = 0, right = height.length - 1;\n  let leftMax = 0, rightMax = 0;\n  let water = 0;\n\n  while (left < right) {\n    if (height[left] < height[right]) {\n      if (height[left] >= leftMax) {\n        leftMax = height[left];\n      } else {\n        water += {{SLOT_1}};\n      }\n      left++;\n    } else {\n      if (height[right] >= rightMax) {\n        rightMax = height[right];\n      } else {\n        water += {{SLOT_2}};\n      }\n      right--;\n    }\n  }\n  return water;\n}",
    slots := [
      Slot("{{SLOT_1}}", [
        Option("tr_1", "leftMax - height[left]", true),
        Option("tr_2", "rightMax - height[left]", false),
        Option("tr_3", "height[left] - leftMax", false)
      ]),
      Slot("{{SLOT_2}}", [
        Option("tr2_1", "rightMax - height[right]", true),
        Option("tr2_2", "leftMax - height[right]", false),
        Option("tr2_3", "height[right]", false)
      ])
    ],
    explanation := "### Approach\nWe use the **Two Pointer** technique. The amount of water trapped at any point is determined by the shorter of the two maximum heights on either side (`min(leftMax, rightMax)`) minus the current height. By moving pointers inward from the smaller side, we ensure we always know the limiting wall height.\n\n### Time Complexity\n**O(n)**. Single pass.\n\n### Space Complexity\n**O(1)**. No extra arrays used.")

  const MergeKSortedLists: Question := Question(
    title := "Merge k Sorted Lists",
    difficulty := Hard,
    topic := "Linked Lists",
    description := "You are given an array of `k` linked-lists lists, each linked-list is sorted in ascending order. Merge all the linked-lists into one sorted linked-list and return it.",
    codeTemplate := "function mergeKLists(lists: Array<ListNode | null>): ListNode | null {\n  if (lists.length === 0) return null;\n  \n  // Helper to merge two lists\n  const mergeTwo = (l1: ListNode | null, l2: ListNode | null) => {\n    const dummy = new ListNode(0);\n    let curr = dummy;\n    while (l1 && l2) {\n      if (l1.val < l2.val) {\n        curr.next = l1; l1 = l1.next;\n      } else {\n        curr.next = l2; l2 = l2.next;\n      }\n      curr = {{SLOT_1}};\n    }\n    curr.next = l1 || l2;\n    return dummy.next;\n  };\n\n  // Divide and Conquer\n  let interval = 1;\n  while (interval < lists.length) {\n    for (let i = 0; i + interval < lists.length; i = i + interval * 2) {\n      lists[i] = mergeTwo(lists[i], {{SLOT_2}});\n    }\n    interval *= 2;\n  }\n  return lists[0];\n}",
    slots := [
      Slot("{{SLOT_1}}", [
        Option("mk_1", "curr.next", true),
        Option("mk_2", "curr", false),
        Option("mk_3", "dummy", false)
      ]),
      Slot("{{SLOT_2}}", [
        Option("mk2_1", "lists[i + interval]", true),
        Option("mk2_2", "lists[i + 1]", false),
        Option("mk2_3", "lists[interval]", false)
      ])
    ],
    explanation := "### Approach\nWe use a **Divide and Conquer** strategy similar to Merge Sort. Instead of merging lists sequentially (which is slow), we merge pairs of lists (0&1, 2&3...), then merge the results, effectively reducing the number of lists by half in each iteration.\n\n### Time Complexity\n**O(N log k)**, where N is total nodes and k is number of lists.\n\n### Space Complexity\n**O(1)** if merging iteratively.")

  const QuestionBank: seq<Question> := [TwoSum, ValidPalindrome, MaximumSubarray, ContainerWithMostWater, BinaryTreeLevelOrderTraversal, TrappingRainWater, MergeKSortedLists]

  /** The questions of `qs` whose difficulty is `difficulty`, in their original order. */
  function FilterByDifficulty(qs: seq<Question>, difficulty: string): (pool: seq<Question>)
    ensures |pool| <= |qs|
    ensures forall q :: q in pool <==> q in qs && q.difficulty == difficulty
  {
    if qs == [] then []
    else (if qs[0].difficulty == difficulty then [qs[0]] else []) + FilterByDifficulty(qs[1..], difficulty)
  }

  /** The bank's questions of one difficulty. */
  function Pool(difficulty: string): (pool: seq<Question>)
    ensures forall q :: q in pool <==> q in QuestionBank && q.difficulty == difficulty
  {
    FilterByDifficulty(QuestionBank, difficulty)
  }

  /** The first question of `pool` whose title is not in `seen`, if any. */
  function FirstUnseen(pool: seq<Question>, seen: seq<string>): (r: Maybe<Question>)
    ensures r.None? <==> forall q :: q in pool ==> q.title in seen
    ensures r.Some? ==> exists i :: 0 <= i < |pool| && pool[i] == r.value && r.value.title !in seen &&
                          forall j :: 0 <= j < i ==> pool[j].title in seen
  {
    if pool == [] then None
    else if pool[0].title !in seen then Some(pool[0])
    else
      var r := FirstUnseen(pool[1..], seen);
      if r.Some? then
        ghost var i :| 0 <= i < |pool[1..]| && pool[1..][i] == r.value && r.value.title !in seen &&
                       forall j :: 0 <= j < i ==> pool[1..][j].title in seen;
        assert pool[i + 1] == r.value;
        r
      else r
  }

  /**
   * The next question for `difficulty`, given the titles already seen. It
   * fails when the bank has no question of that difficulty. Otherwise it is
   * the first unseen question of that difficulty in bank order; when all have
   * been seen, it is the pool entry at a random index, which `roll` stands
   * for (any draw reaches any index).
   */
  function GenerateQuestion(difficulty: string, history: seq<string>, roll: nat): (r: Result<Question>)
    ensures r.Err? <==> Pool(difficulty) == []
    ensures r.Ok? ==> r.value in Pool(difficulty) && r.value in QuestionBank && r.value.difficulty == difficulty
  {
    var pool := Pool(difficulty);
    if |pool| == 0 then
      Err("No questions available for difficulty: " + difficulty)
    else
      match FirstUnseen(pool, history)
      case Some(q) => Ok(q)
      case None => Ok(pool[roll % |pool|])
  }

  /** A question of a declared tier is picked; any other difficulty string fails. */
  lemma GenerateFailsIffUnknownTier(difficulty: string, history: seq<string>, roll: nat)
    ensures GenerateQuestion(difficulty, history, roll).Err? <==> !IsTier(difficulty)
  {
    BankIsTyped();
    if difficulty == Easy {
      assert TwoSum in QuestionBank;
    } else if difficulty == Medium {
      assert MaximumSubarray in QuestionBank;
    } else if difficulty == Hard {
      assert TrappingRainWater in QuestionBank;
    }
  }

  /**
   * While some question of the tier is unseen, the pick is deterministic:
   * whatever the random draw, it is the first unseen one in bank order.
   */
  lemma GenerateIsFirstUnseen(difficulty: string, history: seq<string>, roll: nat, roll': nat)
    requires exists q :: q in Pool(difficulty) && q.title !in history
    ensures GenerateQuestion(difficulty, history, roll) == GenerateQuestion(difficulty, history, roll')
    ensures var r := GenerateQuestion(difficulty, history, roll);
      && r.Ok?
      && r.value.title !in history
      && exists i :: 0 <= i < |Pool(difficulty)| && Pool(difficulty)[i] == r.value &&
           forall j :: 0 <= j < i ==> Pool(difficulty)[j].title in history
  {
  }

  /** Once every question of the tier has been seen, each of them can be picked again. */
  lemma GenerateFallbackCoversPool(difficulty: string, history: seq<string>, q: Question)
    requires forall p :: p in Pool(difficulty) ==> p.title in history
    requires q in Pool(difficulty)
    ensures exists roll: nat :: GenerateQuestion(difficulty, history, roll) == Ok(q)
  {
    var pool := Pool(difficulty);
    var i :| 0 <= i < |pool| && pool[i] == q;
    assert FirstUnseen(pool, history).None?;
    assert GenerateQuestion(difficulty, history, i) == Ok(pool[i % |pool|]);
    ModBelow(i, |pool|);
  }

  lemma ModBelow(i: nat, n: nat)
    requires i < n
    ensures i % n == i
  {
  }

  /** Easy with "Two Sum" already seen gives "Valid Palindrome"; with nothing seen, "Two Sum". */
  lemma GenerateEasyExamples(roll: nat)
    ensures GenerateQuestion(Easy, ["Two Sum"], roll) == Ok(ValidPalindrome)
    ensures GenerateQuestion(Easy, [], roll) == Ok(TwoSum)
  {
    EasyPool();
    assert EasyTier[1..] == [ValidPalindrome];
    assert FirstUnseen(EasyTier, ["Two Sum"]) == Some(ValidPalindrome);
    assert FirstUnseen(EasyTier, []) == Some(TwoSum);
  }

  /** Every question in the bank declares one of the three tiers. */
  lemma BankIsTyped()
    ensures forall q :: q in QuestionBank ==> IsTyped(q)
  {
  }

  /** The bank lists its Easy questions first, then the Medium ones, then the Hard ones. */
  const EasyTier: seq<Question> := [TwoSum, ValidPalindrome]
  const MediumTier: seq<Question> := [MaximumSubarray, ContainerWithMostWater, BinaryTreeLevelOrderTraversal]
  const HardTier: seq<Question> := [TrappingRainWater, MergeKSortedLists]

  /** The pools of the three tiers, in bank order: two Easy, three Medium, two Hard. */
  lemma BankPools()
    ensures Pool(Easy) == EasyTier && |EasyTier| == 2
    ensures Pool(Medium) == MediumTier && |MediumTier| == 3
    ensures Pool(Hard) == HardTier && |HardTier| == 2
  {
    EasyPool();
    MediumPool();
    HardPool();
  }

  lemma EasyPool()
    ensures Pool(Easy) == EasyTier
  {
    EasyFilters();
    PoolOfOneTier(Easy, EasyTier);
  }

  lemma EasyFilters()
    ensures FilterByDifficulty(EasyTier, Easy) == EasyTier
    ensures FilterByDifficulty(MediumTier, Easy) == []
    ensures FilterByDifficulty(HardTier, Easy) == []
  {
    FilterKeepsAll(EasyTier, Easy);
    TierNamesDistinct();
    FilterDropsAll(MediumTier, Easy);
    FilterDropsAll(HardTier, Easy);
  }

  lemma MediumPool()
    ensures Pool(Medium) == MediumTier
  {
    MediumFilters();
    PoolOfOneTier(Medium, MediumTier);
  }

  lemma MediumFilters()
    ensures FilterByDifficulty(MediumTier, Medium) == MediumTier
    ensures FilterByDifficulty(EasyTier, Medium) == []
    ensures FilterByDifficulty(HardTier, Medium) == []
  {
    FilterKeepsAll(MediumTier, Medium);
    TierNamesDistinct();
    FilterDropsAll(EasyTier, Medium);
    FilterDropsAll(HardTier, Medium);
  }

  lemma HardPool()
    ensures Pool(Hard) == HardTier
  {
    HardFilters();
    PoolOfOneTier(Hard, HardTier);
  }

  lemma HardFilters()
    ensures FilterByDifficulty(HardTier, Hard) == HardTier
    ensures FilterByDifficulty(EasyTier, Hard) == []
    ensures FilterByDifficulty(MediumTier, Hard) == []
  {
    FilterKeepsAll(HardTier, Hard);
    TierNamesDistinct();
    FilterDropsAll(EasyTier, Hard);
    FilterDropsAll(MediumTier, Hard);
  }

  /** A pool is a tier's group when the filter keeps that group whole and drops the others. */
  lemma PoolOfOneTier(d: string, group: seq<Question>)
    requires group == EasyTier || group == MediumTier || group == HardTier
    requires FilterByDifficulty(group, d) == group
    requires forall g :: (g == EasyTier || g == MediumTier || g == HardTier) && g != group ==> FilterByDifficulty(g, d) == []
    ensures Pool(d) == group
  {
    PoolByGroups(d);
  }

  lemma PoolByGroups(d: string)
    ensures Pool(d) == FilterByDifficulty(EasyTier, d) + FilterByDifficulty(MediumTier, d)
                       + FilterByDifficulty(HardTier, d)
  {
    assert QuestionBank == EasyTier + MediumTier + HardTier;
    FilterAppend(EasyTier + MediumTier, HardTier, d);
    FilterAppend(EasyTier, MediumTier, d);
  }

  lemma FilterDropsAll(qs: seq<Question>, d: string)
    requires forall q :: q in qs ==> q.difficulty != d
    ensures FilterByDifficulty(qs, d) == []
  {
    if FilterByDifficulty(qs, d) != [] {
      assert FilterByDifficulty(qs, d)[0] in FilterByDifficulty(qs, d);
    }
  }

  lemma {:induction false} FilterAppend(a: seq<Question>, b: seq<Question>, d: string)
    ensures FilterByDifficulty(a + b, d) == FilterByDifficulty(a, d) + FilterByDifficulty(b, d)
  {
    if a == [] {
      assert a + b == b;
    } else {
      assert (a + b)[1..] == a[1..] + b;
      FilterAppend(a[1..], b, d);
    }
  }

  lemma {:induction false} FilterKeepsAll(qs: seq<Question>, d: string)
    requires forall q :: q in qs ==> q.difficulty == d
    ensures FilterByDifficulty(qs, d) == qs
  {
    if qs != [] {
      FilterKeepsAll(qs[1..], d);
    }
  }

  /** How many of `options` are marked correct. */
  function CountCorrect(options: seq<Option>): (n: nat)
    ensures n <= |options|
    ensures n == 0 <==> forall o :: o in options ==> !o.isCorrect
  {
    if options == [] then 0 else (if options[0].isCorrect then 1 else 0) + CountCorrect(options[1..])
  }

  /** The authoring rule: every slot offers exactly one correct option. */
  predicate WellAuthored(q: Question) {
    forall s :: s in q.slots ==> CountCorrect(s.options) == 1
  }

  /** The titles of a list of questions, in order. */
  function Titles(qs: seq<Question>): (ts: seq<string>)
    ensures |ts| == |qs| && forall k :: 0 <= k < |qs| ==> ts[k] == qs[k].title
  {
    seq(|qs|, k requires 0 <= k < |qs| => qs[k].title)
  }

  /** Every slot of every bank question has exactly one correct option. */
  lemma BankIsWellAuthored()
    ensures forall q :: q in QuestionBank ==> WellAuthored(q)
  {
    forall q | q in QuestionBank ensures WellAuthored(q) {
      forall s | s in q.slots ensures CountCorrect(s.options) == 1 {
        var o := s.options;
        assert |o| == 3 && o[1..][1..][1..] == [];
        assert o[0].isCorrect && !o[1].isCorrect && !o[2].isCorrect;
      }
    }
  }

  /** No two bank questions share a title. */
  lemma BankTitlesDistinct()
    ensures NoDuplicates(Titles(QuestionBank))
  {
  }

  /** Each bank question has the two slots `{{SLOT_1}}` and `{{SLOT_2}}`, in that order. */
  lemma BankSlotIds()
    ensures forall q :: q in QuestionBank ==> SlotIds(q.slots) == ["{{SLOT_1}}", "{{SLOT_2}}"]
  {
    forall q | q in QuestionBank ensures SlotIds(q.slots) == ["{{SLOT_1}}", "{{SLOT_2}}"] {
      assert |q.slots| == 2 && q.slots[0].id == "{{SLOT_1}}" && q.slots[1].id == "{{SLOT_2}}";
    }
  }

  /** The bank's two slot ids are well-formed markers. */
  lemma BankSlotIdsAreMarkers()
    ensures Template.IsMarker("{{SLOT_1}}") && Template.IsMarker("{{SLOT_2}}")
  {
    Template.SlotMarkerIsMarker('1');
    assert Template.MarkerOpen + ['1'] + Template.MarkerClose == "{{SLOT_1}}";
    Template.SlotMarkerIsMarker('2');
    assert Template.MarkerOpen + ['2'] + Template.MarkerClose == "{{SLOT_2}}";
  }
}
